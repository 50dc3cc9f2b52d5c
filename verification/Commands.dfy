/** What a message does, in terms of its text (cockpit/intent.py, cockpit/core.py). */
module Commands {
  import opened Base
  import opened Text
  import opened Checkpoints
  import opened BrainSession
  import opened Cockpit

  ghost predicate AllBlank(s: string) {
    forall i :: 0 <= i < |s| ==> IsSpace(s[i])
  }

  /** The text is blanks, a word, and then nothing or a blank. */
  ghost predicate FirstWord(text: string, word: string) {
    word != "" && NoSpace(word) && exists blanks, rest :: text == blanks + word + rest && AllBlank(blanks) && Stops(rest)
  }

  predicate Stops(rest: string) {
    rest == "" || IsSpace(rest[0])
  }

  /** The first word of the text is the command, in any case. */
  ghost predicate Says(lower: string -> string, text: string, command: string) {
    exists word :: FirstWord(text, word) && lower(word) == command
  }

  lemma {:induction false} LStripOf(blanks: string, s: string)
    requires AllBlank(blanks) && (s == "" || !IsSpace(s[0]))
    ensures LStrip(blanks + s) == s
  {
    if blanks == "" {
      assert blanks + s == s;
    } else {
      assert (blanks + s)[0] == blanks[0] && (blanks + s)[1..] == blanks[1..] + s;
      LStripOf(blanks[1..], s);
    }
  }

  lemma BlankCons(c: char, blanks: string)
    requires IsSpace(c) && AllBlank(blanks)
    ensures AllBlank([c] + blanks)
  {
    hide IsSpace;
  }

  lemma LStripStep(s: string)
    ensures LStrip(s) == if s != "" && IsSpace(s[0]) then LStrip(s[1..]) else s
    ensures AllBlank("")
  {
    hide IsSpace;
  }

  lemma {:induction false} LStripSplits(s: string) returns (blanks: string)
    ensures s == blanks + LStrip(s) && AllBlank(blanks)
  {
    hide *;
    LStripStep(s);
    if s != "" && IsSpace(s[0]) {
      var rest := LStripSplits(s[1..]);
      BlankCons(s[0], rest);
      blanks := [s[0]] + rest;
      HeadAnd(s, rest, LStrip(s[1..]));
    } else {
      blanks := "";
      assert "" + s == s;
    }
  }

  lemma HeadAnd(s: string, a: string, b: string)
    requires s != "" && s[1..] == a + b
    ensures s == [s[0]] + a + b
  {
    assert s == [s[0]] + s[1..];
  }

  lemma {:induction false} WordOf(word: string, rest: string)
    requires NoSpace(word) && Stops(rest)
    ensures Word(word + rest) == word
  {
    if word == "" {
      assert word + rest == rest;
    } else {
      assert (word + rest)[0] == word[0] && (word + rest)[1..] == word[1..] + rest;
      WordOf(word[1..], rest);
      assert word == [word[0]] + word[1..];
    }
  }

  lemma {:induction false} WordStops(s: string)
    ensures Stops(s[|Word(s)|..])
  {
    if s != "" && !IsSpace(s[0]) {
      WordStops(s[1..]);
      assert s[|Word(s)|..] == s[1..][|Word(s[1..])|..];
    }
  }

  /** Stripping the end of a text that starts with a word leaves the word. */
  lemma {:induction false} WordOfStripped(s: string)
    requires s != "" && !IsSpace(s[0])
    ensures RStrip(s) != "" && Word(RStrip(s)) == Word(s)
    decreases |s|
  {
    if IsSpace(s[|s| - 1]) {
      var init, last := s[..|s| - 1], s[|s| - 1];
      WordOfStripped(init);
      var rest := SplitAtWord(init);
      assert Stops(rest + [last]);
      hide IsSpace, Stops, Word;
      assert s == init + [last] == Word(init) + (rest + [last]);
      WordOf(Word(init), rest + [last]);
    }
  }

  lemma FirstWordFrom(text: string, blanks: string, word: string, rest: string)
    requires text == blanks + (word + rest) && AllBlank(blanks) && Stops(rest) && word != "" && NoSpace(word)
    ensures FirstWord(text, word)
  {
    hide AllBlank, Stops, NoSpace;
    assert text == blanks + word + rest;
  }

  lemma SplitAtWord(t: string) returns (rest: string)
    ensures t == Word(t) + rest && Stops(rest)
  {
    WordStops(t);
    rest := t[|Word(t)|..];
    hide Word, Stops;
  }

  lemma StrippedHasWord(text: string)
    requires Strip(text) != ""
    ensures FirstWord(text, Word(Strip(text)))
  {
    var t := LStrip(text);
    assert t != "" && !IsSpace(t[0]) && Strip(text) == RStrip(t);
    hide *;
    var blanks := LStripSplits(text);
    WordOfStripped(t);
    var rest := SplitAtWord(t);
    FirstWordFrom(text, blanks, Word(t), rest);
  }

  /** The first word is found by stripping the text and reading up to a blank. */
  lemma WordIsFirst(text: string, word: string)
    requires FirstWord(text, word)
    ensures Strip(text) != "" && Word(Strip(text)) == word
  {
    var blanks, rest :| text == blanks + word + rest && AllBlank(blanks) && Stops(rest);
    var t := word + rest;
    assert text == blanks + t && t[0] == word[0] && !IsSpace(t[0]);
    hide IsSpace, Stops;
    LStripOf(blanks, t);
    WordOf(word, rest);
    WordOfStripped(t);
  }

  lemma SaysIs(lower: string -> string, text: string, command: string)
    ensures Says(lower, text, command) <==> Strip(text) != "" && lower(Word(Strip(text))) == command
  {
    if Strip(text) != "" { StrippedHasWord(text); }
    forall word | FirstWord(text, word)
      ensures Strip(text) != "" && word == Word(Strip(text))
    {
      WordIsFirst(text, word);
    }
    hide FirstWord, Strip, Word;
  }

  /**
   * `/kill` is a kill; `/status`, `/approve` and `/deny` leave the session as it is; any other text continues a thread exactly
   * when it is a reply in one whose session is running, and launches one otherwise.
   */
  lemma MessageMeans(c: Config, s: State, e: Event, o: Outside)
    ensures Says(c.lower, e.text, "/kill") ==> HandleEvent(c, s, e, o) == DoKill(c, s, e)
    ensures (exists command :: command in ["/status", "/approve", "/deny"] && Says(c.lower, e.text, command)) ==>
              HandleEvent(c, s, e, o) == s
    ensures (forall command :: command in ["/status", "/approve", "/deny", "/kill"] ==> !Says(c.lower, e.text, command)) ==>
              HandleEvent(c, s, e, o) == DoTask(c, s, e.thread,
                !(e.isReply && e.thread in s.records && s.records[e.thread].status == Running), o)
  {
    SaysIs(c.lower, e.text, "/kill");
    SaysIs(c.lower, e.text, "/status");
    SaysIs(c.lower, e.text, "/approve");
    SaysIs(c.lower, e.text, "/deny");
    hide DoKill, DoTask, Says, Strip, Word;
  }

  /** A known container that is gone ends its session at a restart, and no other record changes. */
  lemma RestartMeans(c: Config, s: State, live: set<string>, ended: seq<string>, thread: string)
    requires c.container && thread in s.records
    ensures var t := Step(c, s, Restart(Some(live), ended));
            var r := s.records[thread];
            thread in t.records && t.saved == s.saved
              && t.records[thread] == if r.container.Some? && r.container.value !in live then r.(status := Dead) else r
  {
  }

  // ---- what a run leaves in the table ------------------------------------------------------

  /** The session's outcome: the brain on the prompt, from the saved checkpoint when the thread is continued. */
  function RunOf(c: Config, s: State, thread: string, launch: bool, o: Outside): Outcome
    requires o.prompt.Some? && (launch || thread in s.saved)
  {
    Driven(thread,
      if c.container && o.started.None? then [StreamError]
      else o.brain(Task(o.prompt.value, thread), if launch then None else Some(s.saved[thread])))
  }

  /** Without a valid spec for the container, or without the grounded prompt, nothing happens. */
  lemma RefusedTask(c: Config, s: State, thread: string, launch: bool, o: Outside)
    requires (c.container && !o.specOk) || o.prompt.None?
    ensures DoTask(c, s, thread, launch, o) == s
  {
  }

  /**
   * A run that completes leaves its checkpoint, and after a launch or in a container its thread running, under the container
   * that was started; in a container its capabilities and everything about other threads stay.
   */
  lemma CompletedTask(c: Config, s: State, thread: string, launch: bool, o: Outside, other: string)
    requires (c.container ==> o.specOk) && o.prompt.Some? && (launch || thread in s.saved)
    requires RunOf(c, s, thread, launch, o).Completed?
    ensures var t := DoTask(c, s, thread, launch, o);
            && t.saved == s.saved[thread := RunOf(c, s, thread, launch, o).result.checkpoint]
            && (c.container || launch ==> thread in t.records && t.records[thread].status == Running)
            && (c.container ==>
                  && o.started.Some? && t.records[thread].container == Some(o.started.value.0)
                  && t.records[thread].image == Some(o.started.value.1)
                  && (thread in s.records ==> t.records[thread].caps == s.records[thread].caps))
            && (!c.container && !launch ==> t.records == s.records)
            && (other != thread ==>
                  (other in t.records <==> other in s.records) && (other in s.records ==> t.records[other] == s.records[other]))
  {
    hide Clean, Conclude;
    OnlyAnError(thread);
  }

  lemma OnlyAnError(thread: string)
    ensures Driven(thread, [StreamError]) == Failed
  {
    assert ![StreamError][0].Ev?;
  }

  /**
   * A run that does not complete, or a thread with nothing to continue from, saves nothing; in a container the thread's record,
   * if it has one, is closed, and otherwise nothing changes.
   */
  lemma FailedTask(c: Config, s: State, thread: string, launch: bool, o: Outside, other: string)
    requires (c.container ==> o.specOk) && o.prompt.Some?
    requires (!launch && thread !in s.saved) || !RunOf(c, s, thread, launch, o).Completed?
    ensures var t := DoTask(c, s, thread, launch, o);
            && t.saved == s.saved
            && (c.container && thread in t.records ==> t.records[thread].status == Closed)
            && (!c.container ==> t.records == s.records)
            && (other != thread ==>
                  (other in t.records <==> other in s.records) && (other in s.records ==> t.records[other] == s.records[other]))
  {
    hide Driven;
  }
}
