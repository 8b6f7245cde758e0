/**
  The robot slot and the scene as values. The slot is the one robot the
  render loop drives; the scene is the set of robots added to the drawing and
  not yet removed; `disposed` is the set of robots whose geometry and
  materials were released; `errors` is what went to the error log.

  `BeginSwap`, `LoadSucceeded` and `LoadFailed` are the transitions as the
  panel performs them; the `Guarded` transitions are the same steps with a
  load generation checked at completion.
 */
module ModelLifecycle {
  import opened Wrappers

  datatype Lifecycle<R> = Lifecycle(slot: Option<R>, scene: set<R>, disposed: set<R>, errors: seq<string>)

  /** The robots the slot holds, as a set. */
  function SlotSet<R>(slot: Option<R>): set<R> {
    match slot
    case None => {}
    case Some(r) => {r}
  }

  /** Nothing in the slot, nothing in the scene, nothing logged. */
  function Initial<R>(): (s: Lifecycle<R>)
    ensures s.slot.None? && s.scene == {} && s.errors == []
  {
    Lifecycle(None, {}, {}, [])
  }

  /**
    The intended shape of the scene: it shows exactly the robot in the slot,
    so no robot is drawn that the render loop does not drive.
   */
  predicate SceneIsSlot<R>(s: Lifecycle<R>) {
    s.scene == SlotSet(s.slot)
  }

  /**
    The start of a variant change: a robot in the slot is removed from the
    scene, disposed, and the slot emptied; then the new load is issued.
   */
  function BeginSwap<R>(s: Lifecycle<R>): (t: Lifecycle<R>)
    ensures t.slot.None?
    ensures t.scene == s.scene - SlotSet(s.slot)
    ensures t.disposed == s.disposed + SlotSet(s.slot)
    ensures t.errors == s.errors
  {
    match s.slot
    case None => s
    case Some(current) => s.(slot := None, scene := s.scene - {current}, disposed := s.disposed + {current})
  }

  /** A load completes: its robot is added to the scene and put in the slot, whatever the slot held. */
  function LoadSucceeded<R>(s: Lifecycle<R>, robot: R): (t: Lifecycle<R>)
    ensures t.slot == Some(robot)
    ensures t.scene == s.scene + {robot}
    ensures t.disposed == s.disposed && t.errors == s.errors
  {
    s.(slot := Some(robot), scene := s.scene + {robot})
  }

  /** A load fails: the error is logged, and slot and scene stay as they are. */
  function LoadFailed<R>(s: Lifecycle<R>, error: string): (t: Lifecycle<R>)
    ensures t.slot == s.slot && t.scene == s.scene && t.disposed == s.disposed
    ensures t.errors == s.errors + [error]
  {
    s.(errors := s.errors + [error])
  }

  /**
    A swap followed by the failure of its load leaves the slot empty and the
    scene without the robot the slot held; robots drawn beside the slot stay
    drawn. From a scene showing only the slot, the scene ends empty.
   */
  lemma SwapThenFailureLeavesEmpty<R>(s: Lifecycle<R>, error: string)
    ensures LoadFailed(BeginSwap(s), error).slot.None?
    ensures LoadFailed(BeginSwap(s), error).scene == s.scene - SlotSet(s.slot)
    ensures SceneIsSlot(s) ==> LoadFailed(BeginSwap(s), error).scene == {}
  {
  }

  /** With one load in flight at a time the scene keeps showing exactly the slot. */
  lemma SingleLoadKeepsSceneIsSlot<R>(s: Lifecycle<R>, robot: R, error: string)
    requires SceneIsSlot(s)
    ensures SceneIsSlot(BeginSwap(s))
    ensures SceneIsSlot(LoadSucceeded(BeginSwap(s), robot))
    ensures SceneIsSlot(LoadFailed(s, error))
  {
  }

  /**
    Two variant changes in quick succession (ur16e, then ur10e before the
    first load returns), both loads succeeding in order: the first robot
    stays in the scene, never disposed, while the slot holds the second.
   */
  lemma OverlappingLoadsLeak()
    ensures var s := LoadSucceeded(LoadSucceeded(BeginSwap(BeginSwap(Initial<int>())), 1), 2);
      s.slot == Some(2) && s.scene == {1, 2} && 1 !in s.disposed && !SceneIsSlot(s)
  {
  }

  /**
    The same two changes with the loads returning in reverse order: the
    robot of the superseded variant ends up in the slot.
   */
  lemma StaleLoadWins()
    ensures var s := LoadSucceeded(LoadSucceeded(BeginSwap(BeginSwap(Initial<int>())), 2), 1);
      s.slot == Some(1) && s.scene == {1, 2}
  {
  }

  /**
    The lifecycle with a counter of loads issued (`generation`, one per
    variant selection) and the generation whose load filled the slot
    (`attachedAt`).
   */
  datatype Guarded<R> = Guarded(life: Lifecycle<R>, generation: nat, attachedAt: nat)

  /**
    The intended invariant: the scene shows exactly the slot, and a robot in
    the slot was loaded for the variant selected now.
   */
  predicate GuardedTidy<R>(g: Guarded<R>) {
    SceneIsSlot(g.life) && (g.life.slot.Some? ==> g.attachedAt == g.generation)
  }

  /** A swap that also starts a new generation; the load it issues carries that generation. */
  function GuardedBeginSwap<R>(g: Guarded<R>): (h: Guarded<R>)
    ensures h.life == BeginSwap(g.life)
    ensures h.generation > g.generation && h.attachedAt == g.attachedAt
  {
    Guarded(BeginSwap(g.life), g.generation + 1, g.attachedAt)
  }

  /**
    A completion of the load of generation `ticket`: attached only if it is
    the latest load and the slot is still empty; otherwise the robot is
    disposed and nothing else changes.
   */
  function GuardedLoadSucceeded<R>(g: Guarded<R>, ticket: nat, robot: R): (h: Guarded<R>)
    ensures h.generation == g.generation
    ensures ticket == g.generation && g.life.slot.None? ==>
              h.life == LoadSucceeded(g.life, robot) && h.attachedAt == ticket
    ensures ticket != g.generation || g.life.slot.Some? ==>
              h.life == g.life.(disposed := g.life.disposed + {robot}) && h.attachedAt == g.attachedAt
  {
    if ticket == g.generation && g.life.slot.None? then g.(life := LoadSucceeded(g.life, robot), attachedAt := ticket)
    else g.(life := g.life.(disposed := g.life.disposed + {robot}))
  }

  /** A failure of the latest load is logged; a superseded load's failure is dropped. */
  function GuardedLoadFailed<R>(g: Guarded<R>, ticket: nat, error: string): (h: Guarded<R>)
    ensures h.generation == g.generation && h.attachedAt == g.attachedAt
    ensures h.life.slot == g.life.slot && h.life.scene == g.life.scene && h.life.disposed == g.life.disposed
    ensures ticket == g.generation ==> h.life.errors == g.life.errors + [error]
    ensures ticket != g.generation ==> h.life.errors == g.life.errors
  {
    if ticket == g.generation then g.(life := LoadFailed(g.life, error)) else g
  }

  /**
    With the generation check every step, in any order, keeps the scene
    equal to the slot and the slot's robot of the current selection.
   */
  lemma GuardedKeepsTidy<R>(g: Guarded<R>, ticket: nat, robot: R, error: string)
    requires GuardedTidy(g)
    ensures GuardedTidy(GuardedBeginSwap(g))
    ensures GuardedTidy(GuardedLoadSucceeded(g, ticket, robot))
    ensures GuardedTidy(GuardedLoadFailed(g, ticket, error))
  {
  }

  /** What can happen to the slot: a variant change, or the completion of the load of a generation. */
  datatype Event<R> = Swap | Loaded(ticket: nat, robot: R) | Failed(ticket: nat, error: string)

  /** The guarded lifecycle after a sequence of events, in order. */
  function RunGuarded<R>(g: Guarded<R>, events: seq<Event<R>>): Guarded<R>
    decreases |events|
  {
    if events == [] then g
    else
      var h := match events[0]
        case Swap => GuardedBeginSwap(g)
        case Loaded(ticket, robot) => GuardedLoadSucceeded(g, ticket, robot)
        case Failed(ticket, error) => GuardedLoadFailed(g, ticket, error);
      RunGuarded(h, events[1..])
  }

  /**
    However swaps and completions interleave, the guarded lifecycle never
    draws a robot it does not drive, never drives a robot of a superseded
    selection, and the generation never goes back.
   */
  lemma {:induction false} RunGuardedKeepsTidy<R>(g: Guarded<R>, events: seq<Event<R>>)
    requires GuardedTidy(g)
    ensures GuardedTidy(RunGuarded(g, events))
    ensures RunGuarded(g, events).generation >= g.generation
    decreases |events|
  {
    if events != [] {
      var h := match events[0]
        case Swap => GuardedBeginSwap(g)
        case Loaded(ticket, robot) => GuardedLoadSucceeded(g, ticket, robot)
        case Failed(ticket, error) => GuardedLoadFailed(g, ticket, error);
      RunGuardedKeepsTidy(h, events[1..]);
    }
  }

  /**
    The overlapping changes of OverlappingLoadsLeak under the check: the
    first robot is discarded and disposed, the second is the only one shown.
   */
  lemma GuardedOverlappingLoads()
    ensures var g1 := GuardedBeginSwap(Guarded(Initial<int>(), 0, 0));
      var g2 := GuardedBeginSwap(g1);
      var g := GuardedLoadSucceeded(GuardedLoadSucceeded(g2, g1.generation, 1), g2.generation, 2);
      g.life.slot == Some(2) && g.life.scene == {2} && 1 in g.life.disposed && GuardedTidy(g)
  {
  }
}
