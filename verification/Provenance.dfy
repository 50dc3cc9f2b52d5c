/** Which memories fed which sessions, and the trust tiers that grounded each session. */
module Provenance {
  import opened Base
  import opened LocalMemory

  type ByMemory = map<string, set<string>>
  type Tiers = map<string, seq<string>>

  function SessionsOf(index: ByMemory, id: string): set<string> {
    if id in index then index[id] else {}
  }

  function Recorded(index: ByMemory, session: string, ids: seq<string>): ByMemory
    decreases |ids|
  {
    if |ids| == 0 then index
    else Recorded(index[ids[0] := SessionsOf(index, ids[0]) + {session}], session, ids[1..])
  }

  /** Distinct, first-seen order. */
  function AddDistinct(seen: seq<string>, tiers: seq<string>): seq<string>
    decreases |tiers|
  {
    if |tiers| == 0 then seen
    else AddDistinct(if tiers[0] in seen then seen else seen + [tiers[0]], tiers[1..])
  }

  /** Recording adds `session` to exactly the listed memories and forgets nothing. */
  lemma {:induction false} RecordedSessions(index: ByMemory, session: string, ids: seq<string>, id: string)
    decreases |ids|
    ensures SessionsOf(Recorded(index, session, ids), id)
      == SessionsOf(index, id) + if id in ids then {session} else {}
  {
    if |ids| != 0 {
      RecordedSessions(index[ids[0] := SessionsOf(index, ids[0]) + {session}], session, ids[1..], id);
    }
  }

  /** However often a memory is re-recalled, the tier list never repeats a tier and loses none. */
  lemma {:induction false} TiersDistinct(seen: seq<string>, tiers: seq<string>)
    decreases |tiers|
    requires forall i, j :: 0 <= i < j < |seen| ==> seen[i] != seen[j]
    ensures var r := AddDistinct(seen, tiers);
            && (forall i, j :: 0 <= i < j < |r| ==> r[i] != r[j])
            && (forall t :: t in r <==> t in seen || t in tiers)
            && seen <= r
  {
    if |tiers| != 0 {
      TiersDistinct(if tiers[0] in seen then seen else seen + [tiers[0]], tiers[1..]);
    }
  }

  class ProvenanceLog {
    var byMemory: ByMemory
    var tiersBySession: Tiers

    constructor ()
      ensures byMemory == map[] && tiersBySession == map[]
    {
      byMemory, tiersBySession := map[], map[];
    }

    method Record(session: string, ids: seq<string>)
      modifies this`byMemory
      ensures byMemory == Recorded(old(byMemory), session, ids)
    {
      for i := 0 to |ids|
        invariant Recorded(byMemory, session, ids[i..]) == Recorded(old(byMemory), session, ids)
      {
        assert ids[i..][1..] == ids[i + 1..];
        ghost var before := byMemory;
        if ids[i] !in byMemory {
          byMemory := byMemory[ids[i] := {}];
        }
        byMemory := byMemory[ids[i] := byMemory[ids[i]] + {session}];
        assert byMemory == before[ids[i] := SessionsOf(before, ids[i]) + {session}];
      }
      assert ids[|ids|..] == [];
    }

    method RecordGrounding(session: string, pairs: seq<(string, string)>)
      modifies this
      ensures byMemory == Recorded(old(byMemory), session, Firsts(pairs))
      ensures tiersBySession == if |pairs| == 0 then old(tiersBySession)
        else old(tiersBySession)[session := AddDistinct(Listed(old(tiersBySession), session), Seconds(pairs))]
    {
      Record(session, Firsts(pairs));
      ghost var before := tiersBySession;
      var tiers := Seconds(pairs);
      for i := 0 to |tiers|
        invariant byMemory == Recorded(old(byMemory), session, Firsts(pairs))
        invariant i == 0 ==> tiersBySession == before
        invariant i > 0 ==> session in tiersBySession && tiersBySession == before[session := tiersBySession[session]]
        invariant AddDistinct(Listed(tiersBySession, session), tiers[i..]) == AddDistinct(Listed(before, session), tiers)
      {
        assert tiers[i..][1..] == tiers[i + 1..];
        if session !in tiersBySession {
          tiersBySession := tiersBySession[session := []];
        }
        if tiers[i] !in tiersBySession[session] {
          tiersBySession := tiersBySession[session := tiersBySession[session] + [tiers[i]]];
        }
      }
    }

    method TiersFor(session: string) returns (r: seq<string>)
      ensures r == Listed(tiersBySession, session)
    {
      r := Listed(tiersBySession, session);
    }

    method SessionsFor(id: string) returns (r: set<string>)
      ensures r == SessionsOf(byMemory, id)
    {
      r := SessionsOf(byMemory, id);
    }

    /** The reverse lookup: exactly the memories whose session set holds `session`. */
    method MemoriesFor(session: string) returns (r: set<string>)
      ensures forall id :: id in r <==> session in SessionsOf(byMemory, id)
    {
      r := set id | id in byMemory && session in byMemory[id];
    }

    method ForgetMemory(id: string)
      modifies this`byMemory
      ensures byMemory == old(byMemory) - {id}
    {
      byMemory := byMemory - {id};
    }

    method ForgetSessionTiers(session: string)
      modifies this`tiersBySession
      ensures tiersBySession == old(tiersBySession) - {session}
    {
      tiersBySession := tiersBySession - {session};
    }
  }

  function Firsts(pairs: seq<(string, string)>): (r: seq<string>)
    ensures |r| == |pairs|
  {
    seq(|pairs|, i requires 0 <= i < |pairs| => pairs[i].0)
  }

  function Seconds(pairs: seq<(string, string)>): (r: seq<string>)
    ensures |r| == |pairs|
  {
    seq(|pairs|, i requires 0 <= i < |pairs| => pairs[i].1)
  }
}
