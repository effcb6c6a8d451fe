/** The replay cache: what it remembers, and which presentations it refuses over every history. */
module Replay {

  type Seen = map<string, int>

  /** Entries whose Passport has not expired. */
  function Live(seen: Seen, now: real): Seen {
    map jti | jti in seen && seen[jti] > now.Floor :: seen[jti]
  }

  predicate IsFresh(seen: Seen, now: real, jti: string) {
    jti !in Live(seen, now)
  }

  function Store(seen: Seen, now: real, jti: string, expiresAt: int): Seen {
    if IsFresh(seen, now, jti) then Live(seen, now)[jti := expiresAt] else Live(seen, now)
  }

  /** `InMemoryReplayCache`. */
  class ReplayCache {
    var seen: Seen

    constructor ()
      ensures seen == map[]
    {
      seen := map[];
    }

    /** `check_and_store`: prunes what has expired, then takes the id in unless it is still held. */
    method CheckAndStore(now: real, jti: string, expiresAt: int) returns (first: bool)
      modifies this
      ensures first == IsFresh(old(seen), now, jti)
      ensures seen == Store(old(seen), now, jti, expiresAt)
    {
      seen := map k | k in seen && seen[k] > now.Floor :: seen[k];
      if jti in seen {
        return false;
      }
      seen := seen[jti := expiresAt];
      return true;
    }
  }

  /** One presentation of a jti to the cache. */
  datatype Presented = Presented(at: real, jti: string, expiresAt: int)

  function CacheAfter(history: seq<Presented>): Seen {
    if history == [] then map[]
    else
      var last := history[|history| - 1];
      Store(CacheAfter(history[..|history| - 1]), last.at, last.jti, last.expiresAt)
  }

  predicate AcceptedAt(history: seq<Presented>, i: nat)
    requires i < |history|
  {
    IsFresh(CacheAfter(history[..i]), history[i].at, history[i].jti)
  }

  ghost predicate InOrder(history: seq<Presented>) {
    forall i, j :: 0 <= i < j < |history| ==> history[i].at <= history[j].at
  }

  /** An accepted presentation of the jti that has not expired by `now`. */
  ghost predicate HeldAt(history: seq<Presented>, i: nat, jti: string, now: real)
    requires i < |history|
  {
    AcceptedAt(history, i) && history[i].jti == jti && history[i].expiresAt > now.Floor
  }

  ghost predicate Held(history: seq<Presented>, jti: string, now: real) {
    exists i :: 0 <= i < |history| && HeldAt(history, i, jti, now)
  }

  lemma HeldInPrefix(history: seq<Presented>, k: nat, i: nat, jti: string, now: real)
    requires i < k <= |history|
    ensures HeldAt(history[..k], i, jti, now) <==> HeldAt(history, i, jti, now)
  {
    assert history[..k][..i] == history[..i];
  }

  lemma HeldAfter(init: seq<Presented>, last: Presented, jti: string, now: real)
    ensures Held(init + [last], jti, now) <==>
      Held(init, jti, now) || (last.jti == jti && IsFresh(CacheAfter(init), last.at, jti) && last.expiresAt > now.Floor)
  {
    hide HeldAt, CacheAfter, IsFresh;
    var all := init + [last];
    var n := |init|;
    assert all[..n] == init;
    assert HeldAt(all, n, jti, now)
      <==> last.jti == jti && IsFresh(CacheAfter(init), last.at, jti) && last.expiresAt > now.Floor by {
      LastHeld(all, jti, now);
    }
    forall i | 0 <= i < n ensures HeldAt(init, i, jti, now) <==> HeldAt(all, i, jti, now) {
      HeldInPrefix(all, n, i, jti, now);
    }
    if Held(init, jti, now) {
      var i :| 0 <= i < n && HeldAt(init, i, jti, now);
      assert HeldAt(all, i, jti, now);
    }
  }

  lemma LastHeld(history: seq<Presented>, jti: string, now: real)
    requires history != []
    ensures var n := |history| - 1;
      HeldAt(history, n, jti, now) <==>
        history[n].jti == jti && IsFresh(CacheAfter(history[..n]), history[n].at, jti)
          && history[n].expiresAt > now.Floor
  {
  }

  lemma {:induction false} CacheHolds(history: seq<Presented>, now: real, jti: string)
    requires forall i :: 0 <= i < |history| ==> history[i].at <= now
    ensures jti in CacheAfter(history) && CacheAfter(history)[jti] > now.Floor <==> Held(history, jti, now)
  {
    hide Held, IsFresh, Store;
    if history == [] {
      assert !Held(history, jti, now) by { NothingHeld(jti, now); }
    } else {
      var n := |history| - 1;
      var init, last := history[..n], history[n];
      assert history == init + [last];
      CacheHolds(init, now, jti);
      HeldAfter(init, last, jti, now);
      assert last.at.Floor <= now.Floor;
      CacheStep(CacheAfter(init), last, now, jti);
    }
  }

  lemma NothingHeld(jti: string, now: real)
    ensures !Held([], jti, now)
  {
  }

  lemma CacheStep(seen: Seen, p: Presented, now: real, jti: string)
    requires p.at.Floor <= now.Floor
    ensures var r := Store(seen, p.at, p.jti, p.expiresAt);
      jti in r && r[jti] > now.Floor <==>
        || (jti in seen && seen[jti] > now.Floor)
        || (p.jti == jti && IsFresh(seen, p.at, jti) && p.expiresAt > now.Floor)
  {
  }

  /**
   The cache over every history: a presentation is refused exactly when an accepted one of the same
   jti has not expired yet.
   */
  lemma RefusedExactly(history: seq<Presented>, k: nat)
    requires InOrder(history) && k < |history|
    ensures !AcceptedAt(history, k) <==>
      exists i :: 0 <= i < k && AcceptedAt(history, i) && history[i].jti == history[k].jti
                  && history[i].expiresAt > history[k].at.Floor
  {
    hide HeldAt, CacheAfter, AcceptedAt;
    var past := history[..k];
    var jti, now := history[k].jti, history[k].at;
    CacheHolds(past, now, jti);
    RefusedWhenHeld(history, k);
    forall i | 0 <= i < k
      ensures HeldAt(past, i, jti, now) <==>
        AcceptedAt(history, i) && history[i].jti == jti && history[i].expiresAt > now.Floor
    {
      HeldInPrefix(history, k, i, jti, now);
      HeldMeans(history, i, jti, now);
    }
  }

  lemma HeldMeans(history: seq<Presented>, i: nat, jti: string, now: real)
    requires i < |history|
    ensures HeldAt(history, i, jti, now) <==>
      AcceptedAt(history, i) && history[i].jti == jti && history[i].expiresAt > now.Floor
  {
  }

  lemma RefusedWhenHeld(history: seq<Presented>, k: nat)
    requires k < |history|
    ensures var c := CacheAfter(history[..k]);
      !AcceptedAt(history, k) <==> history[k].jti in c && c[history[k].jti] > history[k].at.Floor
  {
    hide CacheAfter;
  }
}
