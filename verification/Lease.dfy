/**
 The lease around a scheduler tick: several workers, one Redis key, a clock that may
 outrun any holder.  Tokens are assumed fresh, as random 128-bit numbers are.
 */
module Lease {
  import opened Wrappers
  import opened RedisStore

  datatype Params = Params(key: string, ttl: real)

  /** `inside` maps each worker in its critical section to the entry it wrote. */
  datatype State = State(now: real, keys: Keys, inside: map<nat, Entry>, used: set<string>)

  datatype Event =
    | Advance(dt: real)
    | Enter(w: nat, token: string)
    | Refused(w: nat, token: string)
    | Leave(w: nat)
    | Die(w: nat)

  ghost predicate Enabled(p: Params, s: State, e: Event) {
    match e
    case Advance(dt) => dt >= 0.0
    case Enter(w, token) => w !in s.inside && token !in s.used && Get(s.keys, s.now, p.key).None?
    case Refused(w, token) => w !in s.inside && token !in s.used && Get(s.keys, s.now, p.key).Some?
    case Leave(w) => w in s.inside
    case Die(w) => w in s.inside
  }

  function Apply(p: Params, s: State, e: Event): State
    requires e.Leave? || e.Die? ==> e.w in s.inside
  {
    match e
    case Advance(dt) => s.(now := s.now + dt)
    case Enter(w, token) =>
      State(s.now, SetNx(s.keys, s.now, p.key, token, p.ttl), s.inside[w := Entry(token, s.now + p.ttl)], s.used + {token})
    case Refused(w, token) =>
      s.(keys := SetNx(s.keys, s.now, p.key, token, p.ttl), used := s.used + {token})
    case Leave(w) =>
      s.(keys := DelIf(s.keys, s.now, p.key, s.inside[w].value), inside := s.inside - {w})
    case Die(w) => s.(inside := s.inside - {w})
  }

  ghost function Exec(p: Params, s: State, es: seq<Event>): Option<State>
    decreases |es|
  {
    if es == [] then Some(s)
    else if Enabled(p, s, es[0]) then Exec(p, Apply(p, s, es[0]), es[1..])
    else None
  }

  ghost predicate Init(p: Params, s: State) {
    s.inside == map[] && s.used == {} && p.key !in s.keys
  }

  predicate Unexpired(s: State, w: nat) {
    w in s.inside && s.now < s.inside[w].expiry
  }

  /** Tokens tell workers apart, and a holder that has not expired still owns the key. */
  ghost predicate Inv(p: Params, s: State) {
    && (forall w :: w in s.inside ==> s.inside[w].value in s.used)
    && (forall v, w :: v in s.inside && w in s.inside && v != w ==> s.inside[v].value != s.inside[w].value)
    && (p.key in s.keys ==> s.keys[p.key].value in s.used)
    && (forall w :: Unexpired(s, w) ==> p.key in s.keys && s.keys[p.key] == s.inside[w])
  }

  lemma StepInv(p: Params, s: State, e: Event)
    requires Inv(p, s) && Enabled(p, s, e)
    ensures Inv(p, Apply(p, s, e))
  {
  }

  lemma {:induction false} RunInv(p: Params, s: State, es: seq<Event>)
    requires Inv(p, s) && Exec(p, s, es).Some?
    ensures Inv(p, Exec(p, s, es).value)
    decreases |es|
  {
    if es != [] {
      StepInv(p, s, es[0]);
      RunInv(p, Apply(p, s, es[0]), es[1..]);
    }
  }

  /** In every run at most one worker in its section holds an unexpired lease. */
  lemma OneUnexpiredHolder(p: Params, s: State, es: seq<Event>, v: nat, w: nat)
    requires Init(p, s) && Exec(p, s, es).Some?
    requires Unexpired(Exec(p, s, es).value, v) && Unexpired(Exec(p, s, es).value, w)
    ensures v == w
  {
    RunInv(p, s, es);
  }

  /** Nobody has stayed past its expiry. */
  ghost predicate Punctual(s: State) {
    forall w :: w in s.inside ==> Unexpired(s, w)
  }

  /** Hence mutual exclusion whenever every section ends before its time to live. */
  lemma PunctualExclusion(p: Params, s: State, es: seq<Event>)
    requires Init(p, s) && Exec(p, s, es).Some? && Punctual(Exec(p, s, es).value)
    ensures forall v, w :: v in Exec(p, s, es).value.inside && w in Exec(p, s, es).value.inside ==> v == w
  {
    RunInv(p, s, es);
  }

  /** The release of a worker leaves every other unexpired holder's key alone. */
  lemma LeaveSparesOthers(p: Params, s: State, es: seq<Event>, v: nat, w: nat)
    requires Init(p, s) && Exec(p, s, es).Some? && v != w
    requires v in Exec(p, s, es).value.inside && Unexpired(Exec(p, s, es).value, w)
    ensures var t := Exec(p, s, es).value;
            Apply(p, t, Leave(v)).keys == t.keys && Unexpired(Apply(p, t, Leave(v)), w)
  {
    RunInv(p, s, es);
  }

  /** A release removes the key exactly when the lease has not expired. */
  lemma LeaveFrees(p: Params, s: State, es: seq<Event>, w: nat)
    requires Init(p, s) && Exec(p, s, es).Some? && w in Exec(p, s, es).value.inside
    ensures var t := Exec(p, s, es).value;
            var t' := Apply(p, t, Leave(w));
            && (Unexpired(t, w) ==> p.key !in t'.keys)
            && (!Unexpired(t, w) ==> t'.keys == t.keys)
  {
    RunInv(p, s, es);
    RunEntries(p, s, es);
  }

  /** An entry that carries a worker's token expires when that worker's lease does. */
  ghost predicate EntriesMatch(p: Params, s: State) {
    forall w :: w in s.inside && p.key in s.keys && s.keys[p.key].value == s.inside[w].value ==>
      s.keys[p.key] == s.inside[w]
  }

  lemma {:induction false} RunEntries(p: Params, s: State, es: seq<Event>)
    requires Inv(p, s) && EntriesMatch(p, s) && Exec(p, s, es).Some?
    ensures EntriesMatch(p, Exec(p, s, es).value)
    decreases |es|
  {
    if es != [] {
      StepInv(p, s, es[0]);
      RunEntries(p, Apply(p, s, es[0]), es[1..]);
    }
  }

  /** Without punctuality exclusion fails: two workers inside at once, the first one late. */
  lemma LateHolderOverlaps(p: Params, now: real)
    requires p.ttl > 0.0
    ensures var s := State(now, map[], map[], {});
            var es := [Enter(0, "a"), Advance(p.ttl), Enter(1, "b")];
            && Init(p, s) && Exec(p, s, es).Some?
            && 0 in Exec(p, s, es).value.inside && 1 in Exec(p, s, es).value.inside
  {
    var s := State(now, map[], map[], {});
    var s1 := Apply(p, s, Enter(0, "a"));
    var s2 := Apply(p, s1, Advance(p.ttl));
    var s3 := Apply(p, s2, Enter(1, "b"));
    assert Enabled(p, s, Enter(0, "a")) && Enabled(p, s1, Advance(p.ttl));
    assert "a" != "b" && Enabled(p, s2, Enter(1, "b"));
    assert [Enter(0, "a"), Advance(p.ttl), Enter(1, "b")][1..] == [Advance(p.ttl), Enter(1, "b")];
    assert [Advance(p.ttl), Enter(1, "b")][1..] == [Enter(1, "b")];
    assert Exec(p, s3, []) == Some(s3);
    assert Exec(p, s2, [Enter(1, "b")]) == Exec(p, s3, []);
    assert Exec(p, s1, [Advance(p.ttl), Enter(1, "b")]) == Exec(p, s2, [Enter(1, "b")]);
  }
}
