/** Which hosts a policy allows, in terms of their text (membrane/egress.py). */
module EgressAnswers {
  import opened Base
  import opened Text
  import opened Egress
  import opened EgressProxy

  // ---- the host of an address ------------------------------------------------------------

  lemma FindAfter(a: string, c: char, b: string)
    requires c !in a
    ensures Find(a + [c] + b, c) == |a|
  {
    var s := a + [c] + b;
    if a == "" {
      assert s[0] == c;
    } else {
      assert s[0] == a[0] && a[0] in a && s[1..] == a[1..] + [c] + b;
      FindAfter(a[1..], c, b);
    }
  }

  lemma LastColon(h: string, p: string)
    requires ':' !in h && ':' !in p
    ensures var s := h + ":" + p; Colons(s) == 1 && FindLast(s, ':') == |h|
  {
    var s := h + ":" + p;
    assert s == h + (":" + p);
    ColonsSplit(h, ":" + p);
    ColonsSplit(":", p);
    NoColon(h);
    NoColon(p);
    assert Colons(":") == 1 by { assert ":"[1..] == ""; }
    OneColon(s);
    FindAfter(h, ':', p);
  }

  /**
   * A host is judged by its name alone, stripped and lower-cased: a bracketed address by what is in the brackets, a name with
   * one colon by what is before it, and any other text as it is.
   */
  lemma DecideMeans(lower: Lower, allow: set<string>, host: string, h: string, p: string)
    ensures ':' !in h && !("[" <= h) && lower(Strip(host)) == h ==>
              (Decide(lower, allow, host) == Allow <==> h in allow)
    ensures ':' !in h && ':' !in p && !("[" <= h) && lower(Strip(host)) == h + ":" + p ==>
              (Decide(lower, allow, host) == Allow <==> h in allow)
    ensures ']' !in h && lower(Strip(host)) == "[" + h + "]" + p ==> (Decide(lower, allow, host) == Allow <==> h in allow)
    ensures "[" <= h && ']' !in h && lower(Strip(host)) == h ==> (Decide(lower, allow, host) == Allow <==> h in allow)
    ensures !("[" <= h) && (exists a, b, c :: h == a + ":" + b + ":" + c) && lower(Strip(host)) == h ==>
              (Decide(lower, allow, host) == Allow <==> h in allow)
  {
    var text := lower(Strip(host));
    hide Strip;
    if ':' !in h && ':' !in p && !("[" <= h) && text == h + ":" + p {
      LastColon(h, p);
      assert text[..|h|] == h;
      assert text[0] != '[' by { if h != "" { assert h[..1] == [h[0]]; } }
    }
    if ':' !in h { NoColon(h); }
    if ']' !in h && text == "[" + h + "]" + p { Bracketed(h, p); }
    if "[" <= h && ']' !in h { FindAbsent(h, ']'); }
    if a, b, c :| h == a + ":" + b + ":" + c { TwoColons(a, b, c); }
  }

  lemma Bracketed(h: string, p: string)
    requires ']' !in h
    ensures DropPort("[" + h + "]" + p) == h
  {
    var text := "[" + h + "]" + p;
    assert text == ("[" + h) + [']'] + p;
    FindAfter("[" + h, ']', p);
    assert text[1..1 + |h|] == h;
  }

  lemma TwoColons(a: string, b: string, c: string)
    ensures Colons(a + ":" + b + ":" + c) >= 2
  {
    var s := a + ":" + b + ":" + c;
    assert s == a + (":" + (b + (":" + c)));
    ColonsSplit(a, ":" + (b + (":" + c)));
    ColonsSplit(":", b + (":" + c));
    ColonsSplit(b, ":" + c);
    ColonsSplit(":", c);
    assert Colons(":") == 1 by { assert ":"[1..] == ""; }
  }

  // ---- the entries of a policy -------------------------------------------------------------

  /** The name an entry stands for: it is not empty, is a single plain name, and stands for itself. */
  predicate IsName(lower: Lower, name: string) {
    && name != "" && !("." <= name)
    && (forall i :: 0 <= i < |name| ==> name[i] !in "*[]," && !IsSpace(name[i]))
    && NormalizeHost(lower, name) == name
  }

  lemma NameIsAccepted(lower: Lower, name: string)
    ensures IsName(lower, name) <==> Accepted(lower, name)
  {
    hide NormalizeHost, IsSpace;
    if name != "" { assert "." <= name <==> name[0] == '.'; }
    assert forall i :: 0 <= i < |name| ==> name[i] in name;
  }

  /** The entry is not blank, and stands for a plain name. */
  predicate Stands(lower: Lower, entry: string) {
    Strip(entry) != "" && IsName(lower, NormalizeHost(lower, Strip(entry)))
  }

  function NameOf(lower: Lower, entry: string): string {
    NormalizeHost(lower, Strip(entry))
  }

  lemma StandsIsOk(lower: Lower, entry: string)
    ensures Stands(lower, entry) <==> EntryOk(lower, entry)
  {
    NameIsAccepted(lower, NormalizeHost(lower, Strip(entry)));
  }

  lemma OneMoreEntry(lower: Lower, entries: seq<string>)
    requires |entries| > 0
    ensures var init, last := entries[..|entries| - 1], entries[|entries| - 1];
            && (AllowOf(lower, entries).Some? <==> AllowOf(lower, init).Some? && EntryOk(lower, last))
            && (AllowOf(lower, entries).Some? ==>
                  AllowOf(lower, entries).value == AllowOf(lower, init).value + {NameOf(lower, last)})
  {
    hide EntryOk;
  }

  ghost predicate AllStand(lower: Lower, entries: seq<string>) {
    forall i :: 0 <= i < |entries| ==> Stands(lower, entries[i])
  }

  ghost predicate Named(lower: Lower, entries: seq<string>, host: string) {
    exists i :: 0 <= i < |entries| && host == NameOf(lower, entries[i])
  }

  lemma AllStandSnoc(lower: Lower, init: seq<string>, last: string, host: string)
    ensures AllStand(lower, init + [last]) <==> AllStand(lower, init) && Stands(lower, last)
    ensures Named(lower, init + [last], host) <==> Named(lower, init, host) || host == NameOf(lower, last)
  {
    hide Stands, NameOf;
    var all := init + [last];
    assert all[|init|] == last;
    assert forall i :: 0 <= i < |init| ==> all[i] == init[i];
  }

  lemma NoEntries(lower: Lower, entries: seq<string>, host: string)
    requires |entries| == 0
    ensures AllowOf(lower, entries) == Some({}) && AllStand(lower, entries) && !Named(lower, entries, host)
  {
    hide Stands, NameOf;
  }

  /** A policy is refused exactly when some entry is blank or stands for no plain name; otherwise it allows those names. */
  lemma {:induction false} PolicyMeans(lower: Lower, entries: seq<string>, host: string)
    ensures AllowOf(lower, entries).Some? <==> AllStand(lower, entries)
    ensures AllowOf(lower, entries).Some? ==> (host in AllowOf(lower, entries).value <==> Named(lower, entries, host))
  {
    hide *;
    if |entries| == 0 {
      NoEntries(lower, entries, host);
    } else {
      var init, last := entries[..|entries| - 1], entries[|entries| - 1];
      assert entries == init + [last];
      OneMoreEntry(lower, entries);
      StandsIsOk(lower, last);
      AllStandSnoc(lower, init, last, host);
      PolicyMeans(lower, init, host);
    }
  }

  // ---- every policy that is built ----------------------------------------------------------------

  /** Whatever entries a policy was built from, its label gives it back, and both ends decide alike on every host. */
  lemma BuiltPolicyAgrees(lower: Lower, entries: seq<string>, host: string)
    requires AllowOf(lower, entries).Some?
    ensures var allow := AllowOf(lower, entries).value;
            && PolicyFromLabel(lower, Some(AsLabel(allow))) == allow
            && Decide(lower, PolicyFromLabel(lower, Some(AsLabel(allow))), host) == Decide(lower, allow, host)
  {
    assert IsPolicy(lower, AllowOf(lower, entries).value);
    hide AllowOf, Accepted, NormalizeHost;
    LabelRoundTrip(lower, AllowOf(lower, entries).value);
  }

  /** And a proxy under it dials only hosts that it names. */
  lemma BuiltPolicyTunnels(lower: Lower, upper: string -> string, parse: ParseInt, entries: seq<string>, line: string)
    requires LowersLatin1(lower) && RefusesColons(parse) && Latin1(line) && AllowOf(lower, entries).Some?
    ensures var answer := Answered(lower, upper, parse, AllowOf(lower, entries).value, line);
            answer.Connect? ==> Latin1(answer.host) && Named(lower, entries, LatinLower(answer.host))
  {
    var allow := AllowOf(lower, entries).value;
    assert IsPolicy(lower, allow);
    hide AllowOf, Accepted, NormalizeHost, Answered, IsPolicy, LowersLatin1, RefusesColons;
    TunnelsOnlyAllowed(lower, upper, parse, allow, line);
    var answer := Answered(lower, upper, parse, allow, line);
    if answer.Connect? { PolicyMeans(lower, entries, LatinLower(answer.host)); }
  }

  /** What is assumed of lower-casing and of the port parser can be had: a lower-casing of Latin-1 text, and a parser of ports. */
  lemma AssumptionsCanHold(port: nat)
    ensures exists lower: Lower, parse: ParseInt :: LowersLatin1(lower) && RefusesColons(parse) && Reads(parse, port)
  {
    var lower: Lower := (s: string) => if Latin1(s) then LatinLower(s) else s;
    var parse: ParseInt := (s: string) => if s == Dec(port) then Some(port) else None;
    assert LowersLatin1(lower);
    DigitsOnly(Dec(port));
    assert RefusesColons(parse) && Reads(parse, port);
  }

  lemma DigitsOnly(s: string)
    requires AllDigits(s)
    ensures ':' !in s
  {
  }

  /** Where the proxy dials: the host before the first colon, or in the brackets, on the port behind it, or on 443 without one. */
  lemma SplitMeans(parse: ParseInt, h: string, port: string)
    requires port != "" && !(":" <= port)
    ensures ':' !in h && !("[" <= h) ==> SplitAuthority(parse, h) == Some((h, 443))
    ensures ':' !in h && !("[" <= h) ==>
              SplitAuthority(parse, h + ":" + port) == if parse(port).Some? then Some((h, parse(port).value)) else None
    ensures ']' !in h ==> SplitAuthority(parse, "[" + h + "]") == Some((h, 443))
    ensures ']' !in h ==>
              SplitAuthority(parse, "[" + h + "]:" + port) == if parse(port).Some? then Some((h, parse(port).value)) else None
  {
    if ':' !in h && !("[" <= h) {
      PlainSplit(parse, h, port);
    }
    if ']' !in h {
      BracketedSplit(parse, h, "");
      BracketedSplit(parse, h, ":" + port);
      assert "[" + h + "]" + "" == "[" + h + "]" && "[" + h + "]" + (":" + port) == "[" + h + "]:" + port;
      assert (":" + port)[1..] == port && LStripColons(port) == port;
    }
  }

  lemma PlainSplit(parse: ParseInt, h: string, port: string)
    requires ':' !in h && !("[" <= h) && port != ""
    ensures SplitAuthority(parse, h) == Some((h, 443))
    ensures SplitAuthority(parse, h + ":" + port) == if parse(port).Some? then Some((h, parse(port).value)) else None
  {
    FindAbsent(h, ':');
    FindAfter(h, ':', port);
    var text := h + ":" + port;
    assert h[..|h|] == h && text[..|h|] == h && text[|h| + 1..] == port;
    if h != "" { assert h[..1] == [h[0]] && text[0] == h[0]; }
  }

  lemma BracketedSplit(parse: ParseInt, h: string, rest: string)
    requires ']' !in h
    ensures SplitAuthority(parse, "[" + h + "]" + rest) == WithPort(parse, h, LStripColons(rest))
  {
    var text := "[" + h + "]" + rest;
    assert text[1..] == h + [']'] + rest;
    FindAfter(h, ']', rest);
    assert text[1..][..|h|] == h && text[1..][|h| + 1..] == rest;
  }
}
