/** The egress allowlist, and its label (membrane/egress.py, membrane/egress_proxy.py). */
module Egress {
  import opened Base
  import opened Text
  import opened StringOrder

  /** `str.lower`, of which the label round trip needs nothing. */
  type Lower = string -> string

  function Colons(s: string): nat {
    if s == "" then 0 else (if s[0] == ':' then 1 else 0) + Colons(s[1..])
  }

  /** Index of the first `c`, or the length. */
  function Find(s: string, c: char): (i: nat)
    ensures i <= |s| && c !in s[..i]
    ensures i < |s| ==> s[i] == c
  {
    if s == "" || s[0] == c then 0
    else
      assert s[..Find(s[1..], c) + 1] == [s[0]] + s[1..][..Find(s[1..], c)];
      1 + Find(s[1..], c)
  }

  /** Index of the last `c`, or the length. */
  function FindLast(s: string, c: char): (i: nat)
    ensures i <= |s|
    ensures i < |s| ==> s[i] == c
  {
    if s == "" then 0
    else if s[|s| - 1] == c then |s| - 1
    else
      var i := FindLast(s[..|s| - 1], c);
      if i == |s| - 1 then |s| else i
  }

  /** `_normalize_host` after stripping and lower-casing. */
  function DropPort(host: string): string {
    if host != "" && host[0] == '[' then
      var end := Find(host, ']');
      if end < |host| then host[1..end] else host
    else if Colons(host) == 1 then host[..FindLast(host, ':')]
    else host
  }

  function NormalizeHost(lower: Lower, host: string): string {
    DropPort(lower(Strip(host)))
  }

  /** The guards on a normalized entry. */
  predicate Accepted(lower: Lower, host: string) {
    && host != "" && '*' !in host && host[0] != '.' && '[' !in host && ']' !in host && ',' !in host
    && NoSpace(host)
    && NormalizeHost(lower, host) == host
  }

  predicate EntryOk(lower: Lower, entry: string) {
    Strip(entry) != "" && Accepted(lower, NormalizeHost(lower, Strip(entry)))
  }

  /** The allowlist of a policy, or None when an entry is rejected. */
  function AllowOf(lower: Lower, entries: seq<string>): Option<set<string>> {
    if |entries| == 0 then Some({})
    else
      var last := entries[|entries| - 1];
      match AllowOf(lower, entries[..|entries| - 1])
      case None => None
      case Some(allow) =>
        if EntryOk(lower, last) then Some(allow + {NormalizeHost(lower, Strip(last))}) else None
  }

  datatype Decision = Allow | Refuse

  function Decide(lower: Lower, allow: set<string>, host: string): Decision {
    if NormalizeHost(lower, host) in allow then Allow else Refuse
  }

  class EgressPolicy {
    const lower: Lower
    const allow: set<string>
    var log: seq<(string, Decision)>

    constructor (lower: Lower, allow: set<string>)
      ensures this.lower == lower && this.allow == allow && log == []
    {
      this.lower, this.allow, log := lower, allow, [];
    }

    /** Every decision is logged, with the host it was taken on. */
    method DecideHost(host: string) returns (d: Decision)
      modifies this`log
      ensures d == Decide(lower, allow, host)
      ensures log == old(log) + [(NormalizeHost(lower, host), d)]
    {
      var normalized := NormalizeHost(lower, host);
      d := if normalized in allow then Allow else Refuse;
      log := log + [(normalized, d)];
    }

    method Label() returns (s: string)
      ensures s == AsLabel(allow)
    {
      s := Join(Sorted(allow), ',');
    }
  }

  /** The constructor's loop: the first bad entry rejects the whole policy. */
  method BuildAllow(lower: Lower, entries: seq<string>) returns (r: Option<set<string>>)
    ensures r == AllowOf(lower, entries)
  {
    hide EntryOk, NormalizeHost;
    var normalized: set<string> := {};
    for i := 0 to |entries|
      invariant AllowOf(lower, entries[..i]) == Some(normalized)
    {
      assert entries[..i + 1][..i] == entries[..i];
      if !EntryOk(lower, entries[i]) {
        RejectedStays(lower, entries, i + 1);
        return None;
      }
      normalized := normalized + {NormalizeHost(lower, Strip(entries[i]))};
    }
    assert entries[..|entries|] == entries;
    r := Some(normalized);
  }

  lemma {:induction false} RejectedStays(lower: Lower, entries: seq<string>, i: nat)
    requires i <= |entries| && AllowOf(lower, entries[..i]).None?
    ensures AllowOf(lower, entries).None?
  {
    hide EntryOk, NormalizeHost;
    if i == |entries| {
      assert entries[..i] == entries;
    } else {
      assert entries[..|entries| - 1][..i] == entries[..i];
      RejectedStays(lower, entries[..|entries| - 1], i);
    }
  }

  // ---- the label -----------------------------------------------------------

  function AsLabel(allow: set<string>): string {
    Join(Sorted(allow), ',')
  }

  function Stripped(): string -> string {
    (s: string) => Strip(s)
  }

  function NotEmpty(): string -> bool {
    (s: string) => s != ""
  }

  /** Fail-closed: no label, a blank one or a malformed one allows nothing. */
  function PolicyFromLabel(lower: Lower, value: Option<string>): set<string> {
    match value
    case None => {}
    case Some(text) =>
      if Strip(text) == "" then {}
      else
        match AllowOf(lower, Filter(Map(Split(text, ','), Stripped()), NotEmpty()))
        case Some(allow) => allow
        case None => {}
  }

  /** The allowlist of a policy that can be constructed. */
  ghost predicate IsPolicy(lower: Lower, allow: set<string>) {
    exists entries :: AllowOf(lower, entries) == Some(allow)
  }

  lemma {:induction false} KeptAreAccepted(lower: Lower, entries: seq<string>, allow: set<string>, host: string)
    requires AllowOf(lower, entries) == Some(allow) && host in allow
    ensures Accepted(lower, host)
  {
    hide Accepted, NormalizeHost, Strip;
    var last := entries[|entries| - 1];
    if host != NormalizeHost(lower, Strip(last)) {
      KeptAreAccepted(lower, entries[..|entries| - 1], AllowOf(lower, entries[..|entries| - 1]).value, host);
    }
  }

  /** What construction guarantees of each host it keeps. */
  lemma AllowedAreAccepted(lower: Lower, allow: set<string>, host: string)
    requires IsPolicy(lower, allow) && host in allow
    ensures Accepted(lower, host)
  {
    hide Accepted, AllowOf;
    var entries :| AllowOf(lower, entries) == Some(allow);
    KeptAreAccepted(lower, entries, allow, host);
  }

  lemma NoSpaceStrips(s: string)
    requires NoSpace(s)
    ensures Strip(s) == s
  {
    StripFixed(s);
  }

  lemma AcceptedIsFixed(lower: Lower, host: string)
    requires Accepted(lower, host)
    ensures Strip(host) == host && EntryOk(lower, host) && NormalizeHost(lower, Strip(host)) == host
    ensures ',' !in host && host != ""
  {
    NoSpaceStrips(host);
  }

  /** A list of accepted hosts is its own allowlist. */
  lemma {:induction false} AcceptedList(lower: Lower, hosts: seq<string>)
    requires forall h :: h in hosts ==> Accepted(lower, h)
    ensures AllowOf(lower, hosts) == Some(Elements(hosts))
  {
    hide Accepted, EntryOk, NormalizeHost, Strip;
    if |hosts| != 0 {
      var init, last := hosts[..|hosts| - 1], hosts[|hosts| - 1];
      assert hosts == init + [last] && last in hosts;
      AcceptedList(lower, init);
      AcceptedIsFixed(lower, last);
      ElementsSnoc(init, last);
    } else {
      assert Elements(hosts) == {};
    }
  }

  lemma {:induction false} PartsUnchanged(lower: Lower, hosts: seq<string>)
    requires forall h :: h in hosts ==> Accepted(lower, h)
    ensures Filter(Map(hosts, Stripped()), NotEmpty()) == hosts
  {
    if |hosts| != 0 {
      assert hosts == [hosts[0]] + hosts[1..];
      AcceptedIsFixed(lower, hosts[0]);
      PartsUnchanged(lower, hosts[1..]);
      assert Map(hosts, Stripped())[1..] == Map(hosts[1..], Stripped());
    }
  }

  lemma {:induction false} JoinedIsVisible(lower: Lower, hosts: seq<string>)
    requires |hosts| > 0 && forall h :: h in hosts ==> Accepted(lower, h)
    ensures Strip(Join(hosts, ',')) != ""
  {
    var text := Join(hosts, ',');
    assert hosts[0] in hosts;
    assert text != "" && text[0] == hosts[0][0] && !IsSpace(hosts[0][0]);
    StartsVisible(text);
  }

  lemma StartsVisible(s: string)
    requires s != "" && !IsSpace(s[0])
    ensures Strip(s) != ""
  {
    FirstStays(s);
  }

  lemma {:induction false} FirstStays(s: string)
    requires s != "" && !IsSpace(s[0])
    ensures RStrip(s) != ""
  {
    if IsSpace(s[|s| - 1]) {
      FirstStays(s[..|s| - 1]);
    }
  }

  /** The two enforcement points hold the same allowlist, for every policy that could be constructed. */
  lemma LabelRoundTrip(lower: Lower, allow: set<string>)
    requires IsPolicy(lower, allow)
    ensures PolicyFromLabel(lower, Some(AsLabel(allow))) == allow
  {
    hide Accepted, AllowOf, Strip, IsPolicy;
    var hosts := Sorted(allow);
    forall h | h in hosts
      ensures Accepted(lower, h) && ',' !in h
    {
      AllowedAreAccepted(lower, allow, h);
      AcceptedIsFixed(lower, h);
    }
    if |hosts| == 0 {
      assert forall h :: h in allow ==> h in hosts;
      assert allow == {};
      NothingStrips();
    } else {
      forall i | 0 <= i < |hosts|
        ensures ',' !in hosts[i]
      {
        assert hosts[i] in hosts;
      }
      SplitJoin(hosts, ',');
      PartsUnchanged(lower, hosts);
      JoinedIsVisible(lower, hosts);
      AcceptedList(lower, hosts);
      assert Elements(hosts) == allow;
    }
  }

  lemma NothingStrips()
    ensures Strip("") == ""
  {
  }

  /** So they decide alike, for every host anybody asks for. */
  lemma DecideAlike(lower: Lower, allow: set<string>, host: string)
    requires IsPolicy(lower, allow)
    ensures Decide(lower, allow, host) == Decide(lower, PolicyFromLabel(lower, Some(AsLabel(allow))), host)
  {
    LabelRoundTrip(lower, allow);
  }
}
