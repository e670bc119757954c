/**
 The provider cache: an instance per configuration id, created at most once at a time under that id's lock and
 looked up again once the lock is held. One id is followed, with any number of getters and evictions; the cache
 keeps the ids apart.
 */
module ProviderCache {
  import opened Text

  /** Where a getter stands: waiting for the id's lock, or holding it and waiting for the factory. */
  datatype Getter = Waiting | Creating

  /** What a get gave back, and how many evictions had succeeded by then. */
  datatype Answer = Answer(getter: nat, instance: nat, era: nat)

  datatype Cache = Cache(
    cached: seq<nat>,
    holder: seq<nat>,
    getters: map<nat, Getter>,
    stored: nat,
    evicted: nat,
    answers: seq<Answer>)

  datatype Step =
    | Get(getter: nat)
    | Acquire(getter: nat, known: bool)
    | Create(getter: nat)
    | CreateFails(getter: nat)
    | Evict

  predicate Enabled(c: Cache, s: Step) {
    match s
    case Get(g) => g !in c.getters
    case Acquire(g, _) => g in c.getters && c.getters[g].Waiting? && c.holder == []
    case Create(g) => g in c.getters && c.getters[g].Creating?
    case CreateFails(g) => g in c.getters && c.getters[g].Creating?
    case Evict => true
  }

  function Answered(c: Cache, g: nat, instance: nat): seq<Answer> { c.answers + [Answer(g, instance, c.evicted)] }

  function After(c: Cache, s: Step): Cache
    requires Enabled(c, s)
  {
    match s
    case Get(g) =>
      if c.cached != [] then c.(answers := Answered(c, g, c.cached[0]))
      else c.(getters := c.getters[g := Waiting])
    case Acquire(g, known) =>
      // looked up again: another getter may have stored an instance meanwhile
      if c.cached != [] then c.(getters := c.getters - {g}, answers := Answered(c, g, c.cached[0]))
      else if !known then c.(getters := c.getters - {g})
      else c.(getters := c.getters[g := Creating], holder := [g])
    case Create(g) =>
      c.(cached := [c.stored], stored := c.stored + 1, holder := [], getters := c.getters - {g},
         answers := Answered(c, g, c.stored))
    case CreateFails(g) => c.(holder := [], getters := c.getters - {g})
    case Evict => if c.cached != [] then c.(cached := [], evicted := c.evicted + 1) else c
  }

  function Fresh(): Cache { Cache([], [], map[], 0, 0, []) }

  /** At most one getter creates, it is the one with the lock, and nothing is cached while it does. */
  ghost predicate Exclusive(c: Cache) {
    && |c.holder| <= 1 && |c.cached| <= 1
    && (forall g :: g in c.getters && c.getters[g].Creating? <==> c.holder == [g])
    && (c.holder != [] ==> c.cached == [])
  }

  /** Every instance stored was evicted or is cached, and the cached one is the newest. */
  ghost predicate Balanced(c: Cache) {
    && c.stored == c.evicted + |c.cached|
    && (c.cached != [] ==> c.cached == [c.stored - 1])
  }

  /** Each answer is the instance of its era: the one stored after that many evictions. */
  ghost predicate OnePerEra(c: Cache) {
    forall i :: 0 <= i < |c.answers| ==> c.answers[i].instance == c.answers[i].era
  }

  ghost predicate Run(caches: seq<Cache>, steps: seq<Step>) {
    && |caches| == |steps| + 1 && caches[0] == Fresh()
    && forall i :: 0 <= i < |steps| ==> Enabled(caches[i], steps[i]) && caches[i + 1] == After(caches[i], steps[i])
  }

  lemma ExclusiveKept(c: Cache, s: Step)
    requires Exclusive(c) && Enabled(c, s)
    ensures Exclusive(After(c, s))
  {
    assert c.holder != [] ==> c.holder == [c.holder[0]];
  }

  lemma {:induction false} RunBalanced(caches: seq<Cache>, steps: seq<Step>, k: nat)
    requires Run(caches, steps) && k < |caches|
    ensures Exclusive(caches[k]) && Balanced(caches[k]) && OnePerEra(caches[k])
  {
    if k > 0 {
      RunBalanced(caches, steps, k - 1);
      ExclusiveKept(caches[k - 1], steps[k - 1]);
      assert caches[k] == After(caches[k - 1], steps[k - 1]);
    }
  }

  /** Instances stored are successful evictions plus one if something is cached now; and two gets give the same
      instance exactly when no eviction succeeded between them. */
  lemma SameUnlessEvicted(caches: seq<Cache>, steps: seq<Step>, k: nat, i: nat, j: nat)
    requires Run(caches, steps) && k < |caches| && i < |caches[k].answers| && j < |caches[k].answers|
    ensures caches[k].stored == caches[k].evicted + |caches[k].cached| && |caches[k].cached| <= 1
    ensures caches[k].answers[i].instance == caches[k].answers[j].instance <==>
      caches[k].answers[i].era == caches[k].answers[j].era
  {
    RunBalanced(caches, steps, k);
  }

  // ---------------------------------------------------------------- the cache itself

  /** What one getter does with nobody in between: looks up, takes the lock, looks up again, creates and stores. */
  function Alone(c: Cache, g: nat, known: bool, creates: bool): Cache
    requires Enabled(c, Get(g)) && c.holder == []
  {
    var looked := After(c, Get(g));
    if g !in looked.getters then looked
    else
      var again := After(looked, Acquire(g, known));
      if g !in again.getters then again else After(again, if creates then Create(g) else CreateFails(g))
  }

  class AIProviderManager {
    var instances: map<string, nat>

    /** What the machine above knows of one id. */
    ghost function Cached(id: string): seq<nat>
      reads this
    {
      if id in instances then [instances[id]] else []
    }

    constructor ()
      ensures forall id :: Cached(id) == Fresh().cached
    {
      instances := map[];
    }

    /** A lookup, before the lock is taken and again once it is held. */
    method Lookup(id: string) returns (found: bool, instance: nat)
      ensures Cached(id) == if found then [instance] else []
      ensures forall c: Cache, g: nat :: c.cached == Cached(id) && Enabled(c, Step.Get(g)) ==>
        After(c, Step.Get(g)) == if found then c.(answers := Answered(c, g, instance))
          else c.(getters := c.getters[g := Waiting])
    {
      if id in instances {
        return true, instances[id];
      }
      return false, 0;
    }

    /** Keeps what the factory made; the other ids stay as they are. */
    method StoreInstance(id: string, instance: nat)
      modifies this
      ensures forall c: Cache, g: nat :: Enabled(c, Create(g)) && instance == c.stored ==>
        Cached(id) == After(c, Create(g)).cached
      ensures instances == old(instances)[id := instance]
    {
      instances := instances[id := instance];
    }

    /** One get without interference: `known` says whether a factory is registered, `made` what it makes, None if it
        raises. */
    method Get(id: string, known: bool, made: Option<nat>) returns (instance: Option<nat>)
      modifies this
      ensures forall c: Cache, g: nat ::
        c.cached == old(Cached(id)) && Enabled(c, Step.Get(g)) && c.holder == []
          && (made.Some? ==> made.value == c.stored) ==>
        var after := Alone(c, g, known, made.Some?);
        && Cached(id) == after.cached
        && after.answers == if instance.Some? then Answered(c, g, instance.value) else c.answers
      ensures old(id in instances) ==> instance == Some(old(instances[id])) && instances == old(instances)
      ensures old(id !in instances) && known && made.Some? ==>
        instance == made && instances == old(instances)[id := made.value]
      ensures old(id !in instances) && (!known || made.None?) ==> instance == None && instances == old(instances)
    {
      var found, cached := Lookup(id);
      if found {
        return Some(cached);
      }
      found, cached := Lookup(id);
      if found {
        return Some(cached);
      }
      if !known || made.None? {
        return None;
      }
      StoreInstance(id, made.value);
      return made;
    }

    /** Forgets one instance; the others stay. Says whether there was one. */
    method Invalidate(id: string) returns (was: bool)
      modifies this
      ensures forall c: Cache :: c.cached == old(Cached(id)) ==>
        Cached(id) == After(c, Evict).cached && After(c, Evict).evicted == c.evicted + (if was then 1 else 0)
      ensures was == old(id in instances) && instances == old(instances) - {id}
    {
      was := id in instances;
      instances := instances - {id};
    }
  }
}
