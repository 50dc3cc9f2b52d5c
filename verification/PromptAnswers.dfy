/** The text a session reads, part by part (patterns/continuity.py). */
module PromptAnswers {
  import opened Base
  import opened Text
  import opened MemoryModel
  import opened Continuity

  /** One line for each memory, each after a line break. */
  function Lines(ms: seq<Memory>): string {
    if |ms| == 0 then "" else "\n- " + ms[0].text + Lines(ms[1..])
  }

  /** A lane with its title and an empty line behind it; an empty lane is not there. */
  function Lane(title: string, ms: seq<Memory>): string {
    if |ms| == 0 then "" else title + Lines(ms) + "\n\n"
  }

  /** A part with an empty line behind it; an empty part is not there. */
  function Part(title: string, text: string): string {
    if text == "" then "" else title + "\n" + text + "\n\n"
  }

  lemma {:induction false} LinesAre(ms: seq<Memory>)
    requires |ms| > 0
    ensures "\n" + Join(Map(ms, Bullet()), '\n') == Lines(ms)
  {
    var m := ms[0];
    if |ms| == 1 {
      assert ms[1..] == [] && Lines(ms) == "\n- " + m.text + "";
      assert Map(ms, Bullet()) == [Bullet()(m)];
      assert "\n" + ("- " + m.text) == "\n- " + m.text;
    } else {
      LinesAre(ms[1..]);
      var rest := Map(ms[1..], Bullet());
      assert Map(ms, Bullet())[1..] == rest && Map(ms, Bullet())[0] == "- " + m.text;
      hide Map, Bullet;
      Cat("- " + m.text, Join(rest, '\n'), Lines(ms[1..]), m.text);
    }
  }

  lemma Cat(a: string, b: string, c: string, text: string)
    requires a == "- " + text && "\n" + b == c
    ensures "\n" + (a + ['\n'] + b) == "\n- " + text + c
  {
  }

  /** Blocks in a row, each with an empty line behind it. */
  function Rows(blocks: seq<string>): string {
    if |blocks| == 0 then "" else blocks[0] + "\n\n" + Rows(blocks[1..])
  }

  lemma {:induction false} JoinedAre(blocks: seq<string>, last: string)
    ensures JoinBlocks(blocks + [last]) == Rows(blocks) + last
  {
    if |blocks| == 0 {
      assert blocks + [last] == [last];
    } else {
      var all := blocks + [last];
      assert all[0] == blocks[0] && all[1..] == blocks[1..] + [last] && |all| > 1;
      JoinedAre(blocks[1..], last);
    }
  }

  lemma {:induction false} RowsConcat(a: seq<string>, b: seq<string>)
    ensures Rows(a + b) == Rows(a) + Rows(b)
  {
    if |a| == 0 {
      assert a + b == b;
    } else {
      assert (a + b)[0] == a[0] && (a + b)[1..] == a[1..] + b;
      RowsConcat(a[1..], b);
    }
  }

  lemma LaneIs(title: string, ms: seq<Memory>)
    ensures Rows(LaneBlock(title, ms)) == Lane(title, ms) && (|LaneBlock(title, ms)| == 0 <==> |ms| == 0)
  {
    if |ms| > 0 {
      LinesAre(ms);
      hide Lines, Map, Bullet;
      OneRow(title + "\n" + Join(Map(ms, Bullet()), '\n'));
      assert title + "\n" + Join(Map(ms, Bullet()), '\n') == title + ("\n" + Join(Map(ms, Bullet()), '\n'));
    }
  }

  lemma OneRow(block: string)
    ensures Rows([block]) == block + "\n\n" && Rows([]) == ""
  {
    assert [block][1..] == [];
  }

  lemma PartsAre(b: AgentBootstrap)
    ensures Rows(InstructionBlock(b)) == Part("Bootstrap instructions:", Strip(b.instructions))
    ensures |InstructionBlock(b)| == 0 <==> Strip(b.instructions) == ""
    ensures Rows(StateBlock(b)) == Part("Agent state (advisory; session checkpoint remains authoritative):", b.stateText)
    ensures |StateBlock(b)| == 0 <==> b.stateText == ""
  {
    hide Strip;
    var instructions := "Bootstrap instructions:\n" + Strip(b.instructions);
    var state := "Agent state (advisory; session checkpoint remains authoritative):\n" + b.stateText;
    OneRow(instructions);
    OneRow(state);
    assert instructions == "Bootstrap instructions:" + "\n" + Strip(b.instructions);
    assert state == "Agent state (advisory; session checkpoint remains authoritative):" + "\n" + b.stateText;
  }

  /**
   * The prompt comes last, under its own title, after the instructions, the guardrails, the recalled memories, the upcoming ones
   * and the state, each only when there is any; with none of them it is the prompt itself.
   */
  lemma PromptMeans(b: AgentBootstrap, prompt: string)
    ensures var l := LanesOf(b);
            Rendered(b, prompt) ==
              if Strip(b.instructions) == "" && l.pinned == [] && l.recalled == [] && l.upcoming == [] && b.stateText == "" then prompt
              else
                Part("Bootstrap instructions:", Strip(b.instructions))
                + Lane("Standing guardrails (always apply):", l.pinned)
                + Lane("Relevant context from prior work:", l.recalled)
                + Lane("Upcoming time memories:", l.upcoming)
                + Part("Agent state (advisory; session checkpoint remains authoritative):", b.stateText)
                + "Task:\n" + prompt
  {
    var l := LanesOf(b);
    var first, second := InstructionBlock(b), LaneBlock("Standing guardrails (always apply):", l.pinned);
    var third, fourth := LaneBlock("Relevant context from prior work:", l.recalled), LaneBlock("Upcoming time memories:", l.upcoming);
    var fifth := StateBlock(b);
    PartsAre(b);
    LaneIs("Standing guardrails (always apply):", l.pinned);
    LaneIs("Relevant context from prior work:", l.recalled);
    LaneIs("Upcoming time memories:", l.upcoming);
    hide InstructionBlock, LaneBlock, StateBlock, LanesOf, Strip, Lane, Part, Rows, JoinBlocks;
    RowsConcat(first, second);
    RowsConcat(first + second, third);
    RowsConcat(first + second + third, fourth);
    RowsConcat(first + second + third + fourth, fifth);
    JoinedAre(first + second + third + fourth + fifth, "Task:\n" + prompt);
    Sum(Rows(first + second + third + fourth + fifth), prompt);
  }

  lemma Sum(rows: string, prompt: string)
    ensures rows + ("Task:\n" + prompt) == rows + "Task:\n" + prompt
  {
  }
}
