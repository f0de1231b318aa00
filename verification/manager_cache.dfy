/** The manager cache under concurrency (pkg/resource/global_network/manager_factory.go).
    `ManagerFor` looks the key up under the read lock, lets go, and on a miss builds and
    stores a manager under the write lock without looking again. The locks make each of
    the two steps atomic; the steps of any number of calls interleave freely. */
module ManagerCache {
  import opened Identity

  /** What the model keeps of a call's arguments. `partition` comes from the
      configuration, which is not part of the key. */
  datatype Request = Request(partition: string, id: string, region: string, roleARN: string)

  function Key(q: Request): string {
    q.id + "/" + q.region + "/" + q.roleARN
  }

  datatype Phase = Missed | Returned(rm: ResourceManager)

  datatype Call = Call(req: Request, phase: Phase)

  /** The shared cache, the calls made so far, and how many managers have been built. */
  datatype State = State(cache: map<string, ResourceManager>, calls: map<nat, Call>, built: nat)

  const INIT := State(map[], map[], 0)

  /** The atomic steps of call `c`. */
  datatype Step = Read(c: nat, req: Request) | Write(c: nat)

  predicate CanWrite(s: State, c: nat) {
    c in s.calls && s.calls[c].phase.Missed?
  }

  /** A step that is not enabled changes nothing. */
  function Take(s: State, step: Step): State {
    match step
    case Read(c, q) =>
      if c in s.calls then s
      else
        var phase := if Key(q) in s.cache then Returned(s.cache[Key(q)]) else Missed;
        s.(calls := s.calls[c := Call(q, phase)])
    case Write(c) =>
      if !CanWrite(s, c) then s
      else
        var q := s.calls[c].req;
        var rm := ResourceManager(s.built, q.id, q.region, q.partition);
        State(s.cache[Key(q) := rm], s.calls[c := Call(q, Returned(rm))], s.built + 1)
  }

  function Exec(s: State, steps: seq<Step>): State {
    if steps == [] then s else Take(Exec(s, steps[..|steps| - 1]), steps[|steps| - 1])
  }

  // ---- The code: one factory, its two critical sections, and a whole call ----

  class Factory {
    var rmCache: map<string, ResourceManager>
    var built: nat  // how many managers have been allocated
    ghost var calls: map<nat, Call>

    constructor ()
      ensures Current() == INIT
    {
      rmCache, built, calls := map[], 0, map[];
    }

    ghost function Current(): State
      reads this
    {
      State(rmCache, calls, built)
    }

    /** Under the read lock. */
    method Lookup(ghost c: nat, q: Request) returns (rm: ResourceManager, found: bool)
      requires c !in calls
      modifies this`calls
      ensures Current() == Take(old(Current()), Read(c, q))
      ensures found <==> Key(q) in rmCache
      ensures found ==> rm == rmCache[Key(q)]
    {
      var rmId := q.id + "/" + q.region + "/" + q.roleARN;
      found := rmId in rmCache;
      rm := if found then rmCache[rmId] else ResourceManager(0, "", "", "");
      calls := calls[c := Call(q, if found then Returned(rm) else Missed)];
    }

    /** Under the write lock. */
    method BuildAndStore(ghost c: nat, q: Request) returns (rm: ResourceManager)
      requires CanWrite(Current(), c) && calls[c].req == q
      modifies this
      ensures Current() == Take(old(Current()), Write(c))
      ensures c in calls && calls[c] == Call(q, Returned(rm))
      ensures rm.awsAccountID == q.id && rm.awsRegion == q.region && rm.awsPartition == q.partition
      ensures rm.serial == old(built) && rmCache == old(rmCache)[q.id + "/" + q.region + "/" + q.roleARN := rm]
    {
      rm := ResourceManager(built, q.id, q.region, q.partition);
      built := built + 1;
      rmCache := rmCache[q.id + "/" + q.region + "/" + q.roleARN := rm];
      calls := calls[c := Call(q, Returned(rm))];
    }

    /** A call that runs without interference. */
    method ManagerFor(ghost c: nat, q: Request) returns (rm: ResourceManager)
      requires c !in calls
      modifies this
      ensures Current() == Exec(old(Current()), [Read(c, q), Write(c)])
      ensures c in calls && calls[c] == Call(q, Returned(rm)) && Key(q) in rmCache && rmCache[Key(q)] == rm
      ensures Key(q) in old(rmCache) ==> rm == old(rmCache)[Key(q)] && built == old(built)
    {
      TwoSteps(Current(), [], Read(c, q), Write(c));
      var found;
      rm, found := Lookup(c, q);
      if !found {
        rm := BuildAndStore(c, q);
      }
    }
  }

  lemma TwoSteps(s: State, steps: seq<Step>, a: Step, b: Step)
    ensures Exec(s, steps + [a, b]) == Take(Take(Exec(s, steps), a), b)
    ensures steps == [] ==> Exec(s, [a, b]) == Take(Take(s, a), b)
  {
    assert (steps + [a, b])[..|steps| + 1] == steps + [a];
    assert (steps + [a])[..|steps|] == steps;
    assert steps == [] ==> steps + [a, b] == [a, b];
  }

  lemma OneStep(s: State, step: Step)
    ensures Exec(s, [step]) == Take(s, step)
  {
    assert [step][..0] == [];
  }

  // ---- Safety ----

  /** Every call that returned got a manager for the account and region it asked for. */
  ghost predicate Serves(s: State) {
    forall c :: c in s.calls && s.calls[c].phase.Returned? ==> BuiltFor(s.calls[c].phase.rm, s.calls[c].req)
  }

  predicate BuiltFor(rm: ResourceManager, q: Request) {
    rm.awsAccountID == q.id && rm.awsRegion == q.region
  }

  /** Requests that share a key ask for the same account and region. */
  ghost predicate Distinguishes(requests: iset<Request>) {
    forall p, q :: p in requests && q in requests && Key(p) == Key(q) ==> p.id == q.id && p.region == q.region
  }

  ghost predicate Uses(steps: seq<Step>, requests: iset<Request>) {
    forall i :: 0 <= i < |steps| && steps[i].Read? ==> steps[i].req in requests
  }

  /** What every reachable state keeps. */
  ghost predicate Sound(s: State, requests: iset<Request>) {
    && Serves(s)
    && (forall c :: c in s.calls ==> s.calls[c].req in requests)
    && (forall k :: k in s.cache ==> exists q :: q in requests && Key(q) == k && BuiltFor(s.cache[k], q))
  }

  lemma {:induction false} SoundAlways(requests: iset<Request>, steps: seq<Step>)
    requires Distinguishes(requests) && Uses(steps, requests)
    ensures Sound(Exec(INIT, steps), requests)
  {
    if steps != [] {
      var init := steps[..|steps| - 1];
      assert forall i :: 0 <= i < |init| ==> init[i] == steps[i];
      SoundAlways(requests, init);
    }
  }

  /** In every interleaving every call is served correctly -- exactly when keys tell the
      requests apart. */
  lemma SafeIffDistinguished(requests: iset<Request>)
    ensures Distinguishes(requests) <==> forall steps :: Uses(steps, requests) ==> Serves(Exec(INIT, steps))
  {
    if Distinguishes(requests) {
      forall steps | Uses(steps, requests) ensures Serves(Exec(INIT, steps)) {
        SoundAlways(requests, steps);
      }
    } else {
      var p, q :| p in requests && q in requests && Key(p) == Key(q) && !(p.id == q.id && p.region == q.region);
      WrongManager(p, q);
      assert Uses([Read(0, p), Write(0), Read(1, q)], requests);
    }
  }

  /** Two requests with one key: the second is given the first one's manager. */
  lemma WrongManager(p: Request, q: Request)
    requires Key(p) == Key(q) && !(p.id == q.id && p.region == q.region)
    ensures !Serves(Exec(INIT, [Read(0, p), Write(0), Read(1, q)]))
  {
    var steps := [Read(0, p), Write(0), Read(1, q)];
    assert steps[..2] == [Read(0, p), Write(0)];
    TwoSteps(INIT, [], Read(0, p), Write(0));
    var s := Exec(INIT, steps);
    assert s.calls[1].phase == Returned(ResourceManager(0, p.id, p.region, p.partition));
  }

  lemma SplitAtSlash(a: string, x: string, b: string, y: string)
    requires a + "/" + x == b + "/" + y && '/' !in a && '/' !in b
    ensures a == b && x == y
  {
    var s := a + "/" + x;
    assert s[|a|] == '/' && s[|b|] == '/';
    assert forall i :: 0 <= i < |a| ==> s[i] == a[i];
    assert forall i :: 0 <= i < |b| ==> s[i] == b[i];
    assert a == s[..|a|] && b == s[..|b|];
    assert x == s[|a| + 1..] && y == s[|b| + 1..];
  }

  /** The key is injective on accounts and regions without a slash, whatever the role. */
  lemma KeyIsInjective(p: Request, q: Request)
    requires Key(p) == Key(q)
    requires '/' !in p.id && '/' !in p.region && '/' !in q.id && '/' !in q.region
    ensures p.id == q.id && p.region == q.region && p.roleARN == q.roleARN
  {
    assert Key(p) == p.id + "/" + (p.region + "/" + p.roleARN);
    assert Key(q) == q.id + "/" + (q.region + "/" + q.roleARN);
    SplitAtSlash(p.id, p.region + "/" + p.roleARN, q.id, q.region + "/" + q.roleARN);
    SplitAtSlash(p.region, p.roleARN, q.region, q.roleARN);
  }

  lemma SlashFreeIsSafe(requests: iset<Request>, steps: seq<Step>)
    requires forall q :: q in requests ==> '/' !in q.id && '/' !in q.region
    requires Uses(steps, requests)
    ensures Serves(Exec(INIT, steps))
  {
    forall p, q | p in requests && q in requests && Key(p) == Key(q) ensures p.id == q.id && p.region == q.region {
      KeyIsInjective(p, q);
    }
    SoundAlways(requests, steps);
  }

  /** With slashes it is not. */
  lemma SlashesCollide()
    ensures !Distinguishes(iset{Request("aws", "1/eu", "west", "r"), Request("aws", "1", "eu/west", "r")})
  {
    var p, q := Request("aws", "1/eu", "west", "r"), Request("aws", "1", "eu/west", "r");
    assert Key(p) == "1/eu/west/r" == Key(q);
    assert |p.id| != |q.id|;
  }

  // ---- Stability ----

  /** The calls for a key that have missed and not stored yet. */
  function Pending(s: State, k: string): set<nat> {
    set c | c in s.calls && s.calls[c].phase.Missed? && Key(s.calls[c].req) == k
  }

  predicate StoresAt(s: State, step: Step, k: string) {
    step.Write? && CanWrite(s, step.c) && Key(s.calls[step.c].req) == k
  }

  /** The read of a new call that finds nothing stored under its key. */
  predicate ReadsEarly(s: State, step: Step, k: string) {
    step.Read? && step.c !in s.calls && Key(step.req) == k && k !in s.cache
  }

  /** How many managers a run stores under a key. */
  function Stores(s: State, steps: seq<Step>, k: string): nat {
    if steps == [] then 0
    else
      var init, last := steps[..|steps| - 1], steps[|steps| - 1];
      Stores(s, init, k) + if StoresAt(Exec(s, init), last, k) then 1 else 0
  }

  /** The calls that store them. */
  function Writers(s: State, steps: seq<Step>, k: string): set<nat> {
    if steps == [] then {}
    else
      var init, last := steps[..|steps| - 1], steps[|steps| - 1];
      var earlier := Writers(s, init, k);
      if StoresAt(Exec(s, init), last, k) then earlier + {last.c} else earlier
  }

  /** The calls of a run that read a key before anything was stored under it. */
  function EarlyReaders(s: State, steps: seq<Step>, k: string): set<nat> {
    if steps == [] then {}
    else
      var init, last := steps[..|steps| - 1], steps[|steps| - 1];
      var earlier := EarlyReaders(s, init, k);
      if ReadsEarly(Exec(s, init), last, k) then earlier + {last.c} else earlier
  }

  lemma PendingStep(s: State, step: Step, k: string)
    ensures var after := Take(s, step);
            && Pending(after, k) == (if StoresAt(s, step, k) then Pending(s, k) - {step.c}
                                     else if ReadsEarly(s, step, k) then Pending(s, k) + {step.c}
                                     else Pending(s, k))
            && (StoresAt(s, step, k) ==> step.c in Pending(s, k))
            && (k in after.cache <==> k in s.cache || StoresAt(s, step, k))
            && (k in s.cache && !StoresAt(s, step, k) ==> after.cache[k] == s.cache[k])
            && s.calls.Keys <= after.calls.Keys
            && (ReadsEarly(s, step, k) ==> step.c !in s.calls && step.c in after.calls && k !in s.cache)
            && Pending(s, k) <= s.calls.Keys
  {
    hide Key;
  }

  /** Step `i` is the read of `c`, for `k`, and no store for `k` came before it. */
  predicate FirstSight(s: State, steps: seq<Step>, k: string, c: nat, i: nat)
    requires i < |steps|
  {
    && steps[i].Read? && steps[i].c == c && Key(steps[i].req) == k
    && c !in Exec(s, steps[..i]).calls && k !in s.cache && Stores(s, steps[..i], k) == 0
  }

  lemma {:induction false} EarlyReadersAre(s: State, steps: seq<Step>, k: string, c: nat)
    ensures c in EarlyReaders(s, steps, k) <==>
            exists i :: 0 <= i < |steps| && FirstSight(s, steps, k, c, i)
  {
    hide Key, Take, Stores, Writers, Pending, Balanced;
    if steps != [] {
      var init, last := steps[..|steps| - 1], steps[|steps| - 1];
      EarlyReadersAre(s, init, k, c);
      Accounting(s, init, k);
      forall i | 0 <= i < |init| ensures FirstSight(s, init, k, c, i) <==> FirstSight(s, steps, k, c, i) {
        assert init[i] == steps[i] && init[..i] == steps[..i];
      }
      assert FirstSight(s, steps, k, c, |init|) <==> last.c == c && ReadsEarly(Exec(s, init), last, k);
      hide FirstSight, ReadsEarly, Exec;
    }
  }

  lemma {:induction false} EarlyReadersAreNew(s: State, steps: seq<Step>, k: string)
    ensures var after, early := Exec(s, steps), EarlyReaders(s, steps, k);
            && early !! s.calls.Keys && early + s.calls.Keys <= after.calls.Keys
            && (k in s.cache ==> early == {} && k in after.cache)
  {
    hide Take, Pending, StoresAt, ReadsEarly;
    if steps != [] {
      var init, last := steps[..|steps| - 1], steps[|steps| - 1];
      EarlyReadersAreNew(s, init, k);
      PendingStep(Exec(s, init), last, k);
    }
  }

  /** Those who have stored and those who still will are those who were about to and those
      who came too early; none is on a side twice. */
  predicate Balanced(writers: set<nat>, left: set<nat>, due: set<nat>, early: set<nat>) {
    writers + left == due + early && writers !! left && due !! early
  }

  lemma BooksOpen(due: set<nat>)
    ensures Balanced({}, due, due, {})
  {
  }

  lemma BooksMove(writers: set<nat>, left: set<nat>, due: set<nat>, early: set<nat>, c: nat)
    requires Balanced(writers, left, due, early)
    ensures c in left ==>
              Balanced(writers + {c}, left - {c}, due, early) && |writers + {c}| == |writers| + 1
    ensures c !in due + early ==> Balanced(writers, left + {c}, due, early + {c})
  {
    assert c in left ==> c !in writers;
    assert c !in due + early ==> c !in writers + left;
  }

  /** The books of a key, over any run from any state: the calls that stored a manager and
      those that still will are the calls that were about to, and those that read the key
      before anything was stored under it. None stores twice. */
  lemma {:induction false} Accounting(s: State, steps: seq<Step>, k: string)
    ensures var writers := Writers(s, steps, k);
            && Balanced(writers, Pending(Exec(s, steps), k), Pending(s, k), EarlyReaders(s, steps, k))
            && Stores(s, steps, k) == |writers|
            && (k in Exec(s, steps).cache <==> k in s.cache || writers != {})
  {
    hide Take, Pending, StoresAt, ReadsEarly, Balanced;
    if steps == [] {
      BooksOpen(Pending(s, k));
    } else {
      var init, last := steps[..|steps| - 1], steps[|steps| - 1];
      var mid := Exec(s, init);
      EarlyReadersAreNew(s, init, k);
      Accounting(s, init, k);
      PendingStep(s, last, k);
      PendingStep(mid, last, k);
      BooksMove(Writers(s, init, k), Pending(mid, k), Pending(s, k), EarlyReaders(s, init, k), last.c);
    }
  }

  /** The same in numbers. */
  lemma StoresCounted(s: State, steps: seq<Step>, k: string)
    ensures Stores(s, steps, k) + |Pending(Exec(s, steps), k)| == |Pending(s, k)| + |EarlyReaders(s, steps, k)|
  {
    Accounting(s, steps, k);
    var writers, left := Writers(s, steps, k), Pending(Exec(s, steps), k);
    assert |writers + left| == |writers| + |left|;
    assert |Pending(s, k) + EarlyReaders(s, steps, k)| == |Pending(s, k)| + |EarlyReaders(s, steps, k)|;
  }

  predicate Asked(s: State, k: string) {
    exists c :: c in s.calls && Key(s.calls[c].req) == k
  }

  lemma AskedStep(s: State, step: Step, k: string)
    ensures Asked(Take(s, step), k) <==> Asked(s, k) || (step.Read? && step.c !in s.calls && Key(step.req) == k)
  {
    hide Key;
    var after := Take(s, step);
    if c :| c in s.calls && Key(s.calls[c].req) == k {
      assert c in after.calls && Key(after.calls[c].req) == k;
    }
    if step.Read? && step.c !in s.calls && Key(step.req) == k {
      assert step.c in after.calls && Key(after.calls[step.c].req) == k;
    }
  }

  /** The first call that asks for a key reads it early. */
  lemma {:induction false} FirstAskerIsEarly(steps: seq<Step>, k: string)
    ensures Asked(Exec(INIT, steps), k) <==> EarlyReaders(INIT, steps, k) != {}
  {
    hide Asked, Take, Key, Writers, Stores;
    if steps == [] {
      NobodyAsked(k);
    } else {
      var init, last := steps[..|steps| - 1], steps[|steps| - 1];
      FirstAskerIsEarly(init, k);
      AskedStep(Exec(INIT, init), last, k);
      Accounting(INIT, init, k);
    }
  }

  lemma NobodyAsked(k: string)
    ensures !Asked(INIT, k)
  {
  }

  /** When exactly one manager per key is built. In every interleaving from the start, as
      many managers have been stored under a key as calls read it before the first store
      and are done. So once none is in flight there is exactly one iff there was exactly
      one such call, and none iff the key was never asked for. */
  lemma {:induction false} OneManagerExactly(steps: seq<Step>, k: string)
    ensures var after, early := Exec(INIT, steps), EarlyReaders(INIT, steps, k);
            && Stores(INIT, steps, k) + |Pending(after, k)| == |early|
            && early == Writers(INIT, steps, k) + Pending(after, k)
            && (Pending(after, k) == {} ==>
                  && (Stores(INIT, steps, k) == 1 <==> exists c :: early == {c})
                  && (k in after.cache <==> Asked(after, k)))
  {
    StoresCounted(INIT, steps, k);
    Accounting(INIT, steps, k);
    FirstAskerIsEarly(steps, k);
    var early := EarlyReaders(INIT, steps, k);
    if |early| == 1 {
      var c :| c in early;
      SingletonSet(early, c);
    }
  }

  lemma SingletonSet<T>(a: set<T>, x: T)
    requires x in a && |a| == 1
    ensures a == {x}
  {
    assert |a - {x}| == 0;
  }

  /** Once a key has been stored, each further store for it uses up a call that had missed
      before: no call that starts later can add one. */
  lemma StoresUsePending(s: State, steps: seq<Step>, k: string)
    requires k in s.cache
    ensures var after, writers := Exec(s, steps), Writers(s, steps, k);
            && k in after.cache && writers <= Pending(s, k)
            && Pending(after, k) == Pending(s, k) - writers
            && Stores(s, steps, k) == |writers|
  {
    EarlyReadersAreNew(s, steps, k);
    Accounting(s, steps, k);
    hide Take, Pending, Stores, Writers, EarlyReaders, Exec;
  }

  /** A stored key is never stored again, in any continuation, iff no call that missed it
      is in flight. */
  lemma QuietExactly(s: State, k: string)
    requires k in s.cache
    ensures Pending(s, k) == {} <==> forall steps :: Stores(s, steps, k) == 0
  {
    if c :| c in Pending(s, k) {
      assert [Write(c)][..0] == [];
      assert Stores(s, [Write(c)], k) == 1;
    } else {
      forall steps ensures Stores(s, steps, k) == 0 {
        StoresUsePending(s, steps, k);
      }
    }
  }

  /** Calls are never forgotten, and what a call returned stays returned. */
  lemma {:induction false} ReturnsAreFinal(s: State, steps: seq<Step>, c: nat)
    requires c in s.calls
    ensures c in Exec(s, steps).calls && Exec(s, steps).calls[c].req == s.calls[c].req
    ensures s.calls[c].phase.Returned? ==> Exec(s, steps).calls[c] == s.calls[c]
  {
    if steps != [] {
      ReturnsAreFinal(s, steps[..|steps| - 1], c);
    }
  }

  /** Once a key has been stored and no call that missed it is in flight, its manager never
      changes again, and every later call for the key returns it, in every interleaving. */
  lemma {:induction false} QuiescentKeysAreStable(s: State, steps: seq<Step>, k: string)
    requires k in s.cache && Pending(s, k) == {}
    ensures var after := Exec(s, steps);
            && k in after.cache && after.cache[k] == s.cache[k] && Pending(after, k) == {}
            && forall c :: c in after.calls && c !in s.calls && Key(after.calls[c].req) == k ==>
                             after.calls[c].phase == Returned(s.cache[k])
  {
    if steps != [] {
      var init, last := steps[..|steps| - 1], steps[|steps| - 1];
      QuiescentKeysAreStable(s, init, k);
      PendingStep(Exec(s, init), last, k);
    }
  }

  /** A manager is numbered when it is built, so the cached ones have smaller numbers than
      any that is still to come. */
  lemma {:induction false} CachedAreOlder(steps: seq<Step>, k: string)
    requires k in Exec(INIT, steps).cache
    ensures Exec(INIT, steps).cache[k].serial < Exec(INIT, steps).built
  {
    var init, last := steps[..|steps| - 1], steps[|steps| - 1];
    if k in Exec(INIT, init).cache {
      CachedAreOlder(init, k);
    }
  }

  /** In a state that the factory can be in, the manager cached for a key is final iff no
      call that missed the key is in flight. */
  lemma StableIffQuiet(past: seq<Step>, k: string)
    requires k in Exec(INIT, past).cache
    ensures var s := Exec(INIT, past);
            Pending(s, k) == {} <==>
            forall steps :: k in Exec(s, steps).cache && Exec(s, steps).cache[k] == s.cache[k]
  {
    var s := Exec(INIT, past);
    if c :| c in Pending(s, k) {
      CachedAreOlder(past, k);
      OneStep(s, Write(c));
      var after := Exec(s, [Write(c)]);
      assert after.cache[k].serial == s.built && after.cache[k] != s.cache[k];
    } else {
      forall steps ensures k in Exec(s, steps).cache && Exec(s, steps).cache[k] == s.cache[k] {
        QuiescentKeysAreStable(s, steps, k);
      }
    }
  }

  /** Overlapping first calls for one key do build two managers, and keep both in use: the
      write step does not look again. */
  lemma RaceBuildsTwo(q: Request)
    ensures var s := Exec(INIT, [Read(0, q), Read(1, q), Write(0), Write(1)]);
            && s.built == 2 && 0 in s.calls && 1 in s.calls
            && s.calls[0].phase.Returned? && s.calls[1].phase.Returned?
            && s.calls[0].phase.rm != s.calls[1].phase.rm
            && Key(q) in s.cache && s.cache[Key(q)] == s.calls[1].phase.rm
  {
    hide Key;
    TwoSteps(INIT, [], Read(0, q), Read(1, q));
    TwoSteps(INIT, [Read(0, q), Read(1, q)], Write(0), Write(1));
    assert [Read(0, q), Read(1, q)] + [Write(0), Write(1)] == [Read(0, q), Read(1, q), Write(0), Write(1)];
  }

  // ---- Calls that do not overlap ----

  /** One call after the other, each running to its end. */
  function OneByOne(requests: seq<Request>): seq<Step> {
    if requests == [] then []
    else
      var n := |requests| - 1;
      OneByOne(requests[..n]) + [Read(n, requests[n]), Write(n)]
  }

  function KeysOf(requests: seq<Request>): set<string> {
    if requests == [] then {} else KeysOf(requests[..|requests| - 1]) + {Key(requests[|requests| - 1])}
  }

  /** All calls have returned, each with the manager cached for its key, and no manager was
      built but the cached ones. */
  ghost predicate Settled(s: State, requests: seq<Request>) {
    && s.built == |s.cache| && s.cache.Keys == KeysOf(requests)
    && (forall c :: c in s.calls ==> c < |requests|)
    && (forall i :: 0 <= i < |requests| ==> Settles(s, i, requests[i]))
  }

  predicate Settles(s: State, c: nat, q: Request) {
    Key(q) in s.cache && c in s.calls && s.calls[c] == Call(q, Returned(s.cache[Key(q)]))
  }

  /** A whole call on a cache that has the key, and on one that has not. */
  lemma SerialCall(s: State, c: nat, q: Request)
    requires c !in s.calls
    ensures Take(Take(s, Read(c, q)), Write(c)) ==
            if Key(q) in s.cache then s.(calls := s.calls[c := Call(q, Returned(s.cache[Key(q)]))])
            else
              var rm := ResourceManager(s.built, q.id, q.region, q.partition);
              State(s.cache[Key(q) := rm], s.calls[c := Call(q, Returned(rm))], s.built + 1)
  {
  }

  lemma SettleFound(s: State, requests: seq<Request>, q: Request)
    requires Settled(s, requests) && Key(q) in s.cache
    ensures Settled(s.(calls := s.calls[|requests| := Call(q, Returned(s.cache[Key(q)]))]), requests + [q])
  {
    hide Key;
    assert (requests + [q])[..|requests|] == requests;
    assert forall i :: 0 <= i < |requests| ==> Settles(s, i, requests[i]);
  }

  lemma SettleBuilt(s: State, requests: seq<Request>, q: Request, rm: ResourceManager)
    requires Settled(s, requests) && Key(q) !in s.cache
    ensures Settled(State(s.cache[Key(q) := rm], s.calls[|requests| := Call(q, Returned(rm))], s.built + 1),
                    requests + [q])
  {
    hide Key;
    assert (requests + [q])[..|requests|] == requests;
    assert forall i :: 0 <= i < |requests| ==> Settles(s, i, requests[i]);
  }

  lemma SettleNext(s: State, requests: seq<Request>, q: Request)
    requires Settled(s, requests)
    ensures Settled(Take(Take(s, Read(|requests|, q)), Write(|requests|)), requests + [q])
  {
    assert |requests| !in s.calls;
    SerialCall(s, |requests|, q);
    if Key(q) in s.cache {
      SettleFound(s, requests, q);
    } else {
      SettleBuilt(s, requests, q, ResourceManager(s.built, q.id, q.region, q.partition));
    }
  }

  /** Calls that do not overlap build exactly one manager per key, and each returns the
      one that is cached for its key. */
  lemma {:induction false} OneManagerPerKey(requests: seq<Request>)
    ensures Settled(Exec(INIT, OneByOne(requests)), requests)
    ensures Exec(INIT, OneByOne(requests)).built == |KeysOf(requests)|
  {
    if requests != [] {
      var n := |requests| - 1;
      var init, q := requests[..n], requests[n];
      OneManagerPerKey(init);
      TwoSteps(INIT, OneByOne(init), Read(n, q), Write(n));
      SettleNext(Exec(INIT, OneByOne(init)), init, q);
      assert init + [q] == requests;
    }
    var s := Exec(INIT, OneByOne(requests));
    assert |s.cache| == |s.cache.Keys|;
  }
}
