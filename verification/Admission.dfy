/** Admission of webhook updates in `TelegramHub.handle`: deduplication, the global and the per-bot
    slots, and the counters.  A request runs without interruption between two awaits, so a run is an
    interleaving of the segments below; a request that is waiting is recorded in `tasks`. */
module Admission {
  import opened Prelude
  import opened Dedup

  datatype Phase = WaitsForSlot | WaitsForBot | Handling

  /** A request past deduplication: it holds its update, and from `WaitsForBot` on a global slot, and
      while `Handling` a slot of its bot. */
  datatype Task = Task(bot: string, update: int, phase: Phase)

  datatype Bot = Bot(free: int, active: int, handled: int, rejected: int, dedup: State)

  datatype Hub = Hub(free: int, active: int, handled: int, rejected: int, bots: map<string, Bot>, tasks: map<nat, Task>)

  datatype Event =
    | Arrives(task: nat, bot: string, update: int, now: int)   // authenticated and within limits
    | Slot(task: nat, granted: bool)
    | BotSlot(task: nat, granted: bool)
    | Ends(task: nat, ok: bool, stamp: int, now: int)          // the plugin returned, failed or timed out

  function Less(n: int): int { if n - 1 > 0 then n - 1 else 0 }

  /** Steps that the program can take: slots are granted only if there is a free one. */
  predicate Enabled(h: Hub, e: Event) {
    match e
    case Arrives(t, b, _, _) => t !in h.tasks && b in h.bots
    case Slot(t, granted) =>
      t in h.tasks && h.tasks[t].bot in h.bots && h.tasks[t].phase == WaitsForSlot && (granted ==> h.free > 0)
    case BotSlot(t, granted) =>
      && t in h.tasks && h.tasks[t].bot in h.bots && h.tasks[t].phase == WaitsForBot
      && (granted ==> h.bots[h.tasks[t].bot].free > 0)
    case Ends(t, _, _, _) => t in h.tasks && h.tasks[t].bot in h.bots && h.tasks[t].phase == Handling
  }

  function Initial(slots: nat, botSlots: map<string, nat>): Hub {
    Hub(slots, 0, 0, 0, map b | b in botSlots :: Bot(botSlots[b], 0, 0, 0, State([], {})), map[])
  }

  /** What deduplication answers and becomes in a step. */
  datatype Verdict = Verdict(answer: Disposition, dedup: State)

  function BotOf(h: Hub, e: Event): string
    requires Enabled(h, e)
  {
    if e.Arrives? then e.bot else h.tasks[e.task].bot
  }

  function Resolve(h: Hub, most: nat, ttl: int, e: Event): Verdict
    requires Enabled(h, e)
  {
    var s := h.bots[BotOf(h, e)].dedup;
    match e
    case Arrives(_, _, update, now) => Verdict(Answer(s, most, ttl, update, now), AfterBegin(s, most, ttl, update, now))
    case Slot(t, granted) => Verdict(New, if granted then s else AfterFail(s, h.tasks[t].update))
    case BotSlot(t, granted) => Verdict(New, if granted then s else AfterFail(s, h.tasks[t].update))
    case Ends(t, ok, stamp, now) =>
      var update := h.tasks[t].update;
      Verdict(New, if ok then AfterComplete(s, most, ttl, update, stamp, now) else AfterFail(s, update))
  }

  function Refused(h: Hub, task: nat, name: string, bot: Bot): Hub {
    h.(bots := h.bots[name := bot.(rejected := bot.rejected + 1)],
       rejected := h.rejected + 1, tasks := h.tasks - {task})
  }

  /** A step, given what deduplication makes of it. */
  function Applied(h: Hub, e: Event, v: Verdict): Hub
    requires Enabled(h, e)
  {
    var name := BotOf(h, e);
    var bot := h.bots[name].(dedup := v.dedup);
    match e
    case Arrives(task, _, update, now) =>
      (match v.answer
       case Completed => h.(bots := h.bots[name := bot])
       case InFlight => h.(bots := h.bots[name := bot.(rejected := bot.rejected + 1)], rejected := h.rejected + 1)
       case New => h.(bots := h.bots[name := bot], tasks := h.tasks[task := Task(name, update, WaitsForSlot)]))
    case Slot(task, granted) =>
      if !granted then Refused(h, task, name, bot)
      else
        h.(free := h.free - 1, bots := h.bots[name := bot],
           tasks := h.tasks[task := h.tasks[task].(phase := WaitsForBot)])
    case BotSlot(task, granted) =>
      if !granted then Refused(h, task, name, bot).(free := h.free + 1, active := Less(h.active))
      else
        h.(active := h.active + 1, bots := h.bots[name := bot.(free := bot.free - 1, active := bot.active + 1)],
           tasks := h.tasks[task := h.tasks[task].(phase := Handling)])
    case Ends(task, ok, stamp, now) =>
      var out := bot.(free := bot.free + 1, active := Less(bot.active));
      (if ok then
         h.(bots := h.bots[name := out.(handled := bot.handled + 1)],
            handled := h.handled + 1, tasks := h.tasks - {task})
       else Refused(h, task, name, out)).(free := h.free + 1, active := Less(h.active))
  }

  function Moved(h: Hub, most: nat, ttl: int, e: Event): Hub
    requires Enabled(h, e)
  {
    Applied(h, e, Resolve(h, most, ttl, e))
  }

  class TelegramHub {
    const maxItems: nat
    const ttl: int
    var free: int             // `_global_slots`
    var active: int           // `active_handlers`
    var handled: int
    var rejected: int
    var bots: map<string, Bot>
    var tasks: map<nat, Task>

    constructor (maxItems: nat, ttl: int, slots: nat, botSlots: map<string, nat>)
      ensures this.maxItems == maxItems && this.ttl == ttl
      ensures Snapshot() == Initial(slots, botSlots)
    {
      this.maxItems, this.ttl := maxItems, ttl;
      this.free, this.active, this.handled, this.rejected, this.tasks := slots, 0, 0, 0, map[];
      this.bots := map b | b in botSlots :: Bot(botSlots[b], 0, 0, 0, State([], {}));
    }

    function Snapshot(): Hub
      reads this
    {
      Hub(free, active, handled, rejected, bots, tasks)
    }

    /** A task leaves without its update being completed. */
    method Reject(task: nat)
      requires task in tasks && tasks[task].bot in bots
      modifies this`rejected, this`bots, this`tasks
      ensures var t := old(tasks)[task]; var bot := old(bots)[t.bot];
        Snapshot() == Refused(old(Snapshot()), task, t.bot, bot.(dedup := AfterFail(bot.dedup, t.update)))
    {
      var t := tasks[task];
      var bot := bots[t.bot];
      bots := bots[t.bot := bot.(dedup := AfterFail(bot.dedup, t.update), rejected := bot.rejected + 1)];
      rejected := rejected + 1;
      tasks := tasks - {task};
    }

    /** `dedup.begin`: `true` if the request goes on. */
    method Arrive(task: nat, name: string, update: int, now: int) returns (on: bool)
      requires Enabled(Snapshot(), Arrives(task, name, update, now))
      modifies this
      ensures Snapshot() == Moved(old(Snapshot()), maxItems, ttl, Arrives(task, name, update, now))
      ensures on <==> task in tasks
    {
      var bot := bots[name];
      var answer := Answer(bot.dedup, maxItems, ttl, update, now);
      bots := bots[name := bot.(dedup := AfterBegin(bot.dedup, maxItems, ttl, update, now))];
      match answer {
        case Completed => return false;
        case InFlight =>
          bots := bots[name := bots[name].(rejected := bot.rejected + 1)];
          rejected := rejected + 1;
          return false;
        case New =>
          tasks := tasks[task := Task(name, update, WaitsForSlot)];
          return true;
      }
    }

    method TakeSlot(task: nat, granted: bool)
      requires Enabled(Snapshot(), Slot(task, granted))
      modifies this
      ensures Snapshot() == Moved(old(Snapshot()), maxItems, ttl, Slot(task, granted))
    {
      if !granted { Reject(task); return; }
      free := free - 1;
      tasks := tasks[task := tasks[task].(phase := WaitsForBot)];
    }

    method TakeBotSlot(task: nat, granted: bool)
      requires Enabled(Snapshot(), BotSlot(task, granted))
      modifies this
      ensures Snapshot() == Moved(old(Snapshot()), maxItems, ttl, BotSlot(task, granted))
    {
      if !granted {
        Reject(task);
        free := free + 1;
        active := Less(active);   // although it was never counted
        return;
      }
      var name := tasks[task].bot;
      active := active + 1;
      bots := bots[name := bots[name].(free := bots[name].free - 1, active := bots[name].active + 1)];
      tasks := tasks[task := tasks[task].(phase := Handling)];
    }

    method End(task: nat, ok: bool, stamp: int, now: int)
      requires Enabled(Snapshot(), Ends(task, ok, stamp, now))
      modifies this
      ensures Snapshot() == Moved(old(Snapshot()), maxItems, ttl, Ends(task, ok, stamp, now))
    {
      var t := tasks[task];
      if ok {
        var bot := bots[t.bot];
        var after := AfterComplete(bot.dedup, maxItems, ttl, t.update, stamp, now);
        bots := bots[t.bot := bot.(dedup := after, handled := bot.handled + 1)];
        handled := handled + 1;
        tasks := tasks - {task};
      } else {
        Reject(task);
      }
      var bot := bots[t.bot];
      bots := bots[t.bot := bot.(free := bot.free + 1, active := Less(bot.active))];
      free := free + 1;
      active := Less(active);
    }
  }

  // ----- conservation -----------------------------------------------------------------------------------

  /** What a request can be holding. */
  datatype Kind = HasSlot | Runs | RunsOn(bot: string)

  predicate Is(k: Kind, t: Task) {
    match k
    case HasSlot => t.phase != WaitsForSlot
    case Runs => t.phase == Handling
    case RunsOn(b) => t.phase == Handling && t.bot == b
  }

  function Having(tasks: map<nat, Task>, k: Kind): (held: set<nat>)
    ensures forall t :: t in held <==> t in tasks && Is(k, tasks[t])
  {
    set t | t in tasks && Is(k, tasks[t])
  }

  function Count(tasks: map<nat, Task>, k: Kind): nat { |Having(tasks, k)| }

  /** Permits are never lost or duplicated, a bot's counter is the number of its running handlers, and
      the hub's counter never exceeds the number of running handlers. */
  ghost predicate Permits(h: Hub, slots: nat, botSlots: map<string, nat>) {
    && h.free + Count(h.tasks, HasSlot) == slots
    && 0 <= h.active <= Count(h.tasks, Runs)
    && h.bots.Keys == botSlots.Keys
    && forall b :: b in h.bots ==> BotPermits(h, b, botSlots[b])
  }

  ghost predicate BotPermits(h: Hub, b: string, slots: nat)
    requires b in h.bots
  {
    h.bots[b].free + Count(h.tasks, RunsOn(b)) == slots && h.bots[b].active == Count(h.tasks, RunsOn(b))
  }

  function InFlights(h: Hub): map<string, set<int>> { map b | b in h.bots :: h.bots[b].dedup.inflight }

  /** An update is in flight exactly while one task has it. */
  ghost predicate Owned(tasks: map<nat, Task>, inflights: map<string, set<int>>) {
    && (forall t :: t in tasks ==> tasks[t].bot in inflights && tasks[t].update in inflights[tasks[t].bot])
    && (forall t, t' ::
          t in tasks && t' in tasks && tasks[t].bot == tasks[t'].bot && tasks[t].update == tasks[t'].update ==> t == t')
    && (forall b, u :: b in inflights && u in inflights[b] ==> HasTask(tasks, b, u))
  }

  ghost predicate HasTask(tasks: map<nat, Task>, b: string, u: int) {
    exists t :: t in tasks && tasks[t].bot == b && tasks[t].update == u
  }

  ghost predicate Conserved(h: Hub, slots: nat, botSlots: map<string, nat>) {
    Permits(h, slots, botSlots) && Owned(h.tasks, InFlights(h))
  }

  // ----- how the numbers change ----------------------------------------------------------------------------

  function One(yes: bool): nat { if yes then 1 else 0 }

  lemma CountPut(tasks: map<nat, Task>, t: nat, x: Task, k: Kind)
    ensures Count(tasks[t := x], k) == Count(tasks, k) + One(Is(k, x)) - One(t in tasks && Is(k, tasks[t]))
  {
    var before, after := Having(tasks, k), Having(tasks[t := x], k);
    assert after - {t} == before - {t};
    assert (t in after <==> Is(k, x)) && (t in before <==> t in tasks && Is(k, tasks[t]));
    SizeWithout(before, t);
    SizeWithout(after, t);
  }

  lemma SizeWithout(s: set<nat>, t: nat)
    ensures |s| == |s - {t}| + One(t in s)
  {
  }

  lemma CountDrop(tasks: map<nat, Task>, t: nat, k: Kind)
    ensures Count(tasks - {t}, k) == Count(tasks, k) - One(t in tasks && Is(k, tasks[t]))
  {
    assert Having(tasks - {t}, k) == Having(tasks, k) - {t};
  }

  /** What a step adds to the number of requests of a kind. */
  function Change(h: Hub, e: Event, k: Kind): int
    requires Enabled(h, e)
  {
    match k
    case HasSlot => if e.Slot? && e.granted then 1 else if e.Ends? || (e.BotSlot? && !e.granted) then -1 else 0
    case Runs => Started(e)
    case RunsOn(b) => if b == BotOf(h, e) then Started(e) else 0
  }

  /** Handlers that an event starts. */
  function Started(e: Event): int { if e.BotSlot? && e.granted then 1 else if e.Ends? then -1 else 0 }

  lemma CountsMove(h: Hub, e: Event, v: Verdict, k: Kind)
    requires Enabled(h, e)
    ensures Count(Applied(h, e, v).tasks, k) == Count(h.tasks, k) + Change(h, e, k)
  {
    match e {
      case Arrives(t, name, update, now) => CountPut(h.tasks, t, Task(name, update, WaitsForSlot), k);
      case Slot(t, granted) =>
        CountPut(h.tasks, t, h.tasks[t].(phase := WaitsForBot), k);
        CountDrop(h.tasks, t, k);
      case BotSlot(t, granted) =>
        CountPut(h.tasks, t, h.tasks[t].(phase := Handling), k);
        CountDrop(h.tasks, t, k);
      case Ends(t, ok, stamp, now) => CountDrop(h.tasks, t, k);
    }
  }

  lemma AddOwner(tasks: map<nat, Task>, inflights: map<string, set<int>>, t: nat, b: string, u: int)
    requires Owned(tasks, inflights) && t !in tasks && b in inflights && u !in inflights[b]
    ensures Owned(tasks[t := Task(b, u, WaitsForSlot)], inflights[b := inflights[b] + {u}])
  {
    var more := tasks[t := Task(b, u, WaitsForSlot)];
    forall b', u' | b' in inflights && (u' in inflights[b'] || (b' == b && u' == u)) ensures HasTask(more, b', u') {
      if u' in inflights[b'] {
        assert HasTask(tasks, b', u');
        var x :| x in tasks && tasks[x].bot == b' && tasks[x].update == u';
        assert more[x] == tasks[x];
      } else {
        assert more[t].bot == b';
      }
    }
  }

  lemma RemoveOwner(tasks: map<nat, Task>, inflights: map<string, set<int>>, t: nat)
    requires Owned(tasks, inflights) && t in tasks
    ensures Owned(tasks - {t}, inflights[tasks[t].bot := inflights[tasks[t].bot] - {tasks[t].update}])
  {
    var b, u := tasks[t].bot, tasks[t].update;
    var left := inflights[b := inflights[b] - {u}];
    forall b', u' | b' in left && u' in left[b'] ensures HasTask(tasks - {t}, b', u') {
      assert HasTask(tasks, b', u');
      var x :| x in tasks && tasks[x].bot == b' && tasks[x].update == u';
      assert x != t && (tasks - {t})[x] == tasks[x];
    }
  }

  lemma AdvanceOwner(tasks: map<nat, Task>, inflights: map<string, set<int>>, t: nat, p: Phase)
    requires Owned(tasks, inflights) && t in tasks
    ensures Owned(tasks[t := tasks[t].(phase := p)], inflights)
  {
    var next := tasks[t := tasks[t].(phase := p)];
    forall b, u | b in inflights && u in inflights[b] ensures HasTask(next, b, u) {
      assert HasTask(tasks, b, u);
      var x :| x in tasks && tasks[x].bot == b && tasks[x].update == u;
      assert next[x].bot == b && next[x].update == u;
    }
  }

  // ----- every step conserves -----------------------------------------------------------------------------

  lemma FieldsMove(h: Hub, e: Event, v: Verdict)
    requires Enabled(h, e)
    ensures Applied(h, e, v).free == h.free - Change(h, e, HasSlot)
    ensures Applied(h, e, v).bots.Keys == h.bots.Keys
    ensures Applied(h, e, v).active ==
            if e.Ends? || (e.BotSlot? && !e.granted) then Less(h.active) else h.active + Started(e)
    ensures forall b :: b in h.bots ==> Applied(h, e, v).bots[b].free == h.bots[b].free - Change(h, e, RunsOn(b))
    ensures forall b :: b in h.bots ==>
      Applied(h, e, v).bots[b].active ==
      if e.Ends? && b == BotOf(h, e) then Less(h.bots[b].active) else h.bots[b].active + Change(h, e, RunsOn(b))
  {
  }

  lemma StepKeepsPermits(h: Hub, e: Event, v: Verdict, slots: nat, botSlots: map<string, nat>)
    requires Permits(h, slots, botSlots) && Enabled(h, e)
    ensures Permits(Applied(h, e, v), slots, botSlots)
  {
    var h' := Applied(h, e, v);
    FieldsMove(h, e, v);
    CountsMove(h, e, v, HasSlot);
    CountsMove(h, e, v, Runs);
    forall b | b in h'.bots ensures BotPermits(h', b, botSlots[b]) {
      assert BotPermits(h, b, botSlots[b]);
      CountsMove(h, e, v, RunsOn(b));
    }
  }

  /** How the set of updates in flight moves. */
  predicate Tracks(h: Hub, e: Event, v: Verdict)
    requires Enabled(h, e)
  {
    var before := h.bots[BotOf(h, e)].dedup.inflight;
    if e.Arrives? then
      if v.answer == New then e.update !in before && v.dedup.inflight == before + {e.update}
      else v.dedup.inflight == before
    else if (e.Slot? && e.granted) || (e.BotSlot? && e.granted) then v.dedup.inflight == before
    else v.dedup.inflight == before - {h.tasks[e.task].update}
  }

  lemma ResolveTracks(h: Hub, most: nat, ttl: int, e: Event)
    requires Enabled(h, e)
    ensures Tracks(h, e, Resolve(h, most, ttl, e))
  {
  }

  lemma InFlightsMove(h: Hub, e: Event, v: Verdict)
    requires Enabled(h, e)
    ensures InFlights(Applied(h, e, v)) == InFlights(h)[BotOf(h, e) := v.dedup.inflight]
  {
  }

  lemma StepKeepsOwned(h: Hub, e: Event, v: Verdict)
    requires Owned(h.tasks, InFlights(h)) && Enabled(h, e) && Tracks(h, e, v)
    ensures Owned(Applied(h, e, v).tasks, InFlights(Applied(h, e, v)))
  {
    var h' := Applied(h, e, v);
    var name := BotOf(h, e);
    InFlightsMove(h, e, v);
    if e.Arrives? {
      if v.answer == New {
        AddOwner(h.tasks, InFlights(h), e.task, name, e.update);
      } else {
        assert InFlights(h') == InFlights(h);
      }
    } else if (e.Slot? && e.granted) || (e.BotSlot? && e.granted) {
      AdvanceOwner(h.tasks, InFlights(h), e.task, h'.tasks[e.task].phase);
      assert InFlights(h') == InFlights(h);
    } else {
      RemoveOwner(h.tasks, InFlights(h), e.task);
    }
  }

  // ----- runs ------------------------------------------------------------------------------------------------

  datatype Config = Config(most: nat, ttl: int, slots: nat, botSlots: map<string, nat>)

  /** The events can happen in this order. */
  predicate Interleaving(c: Config, events: seq<Event>)
    decreases |events|, 0
  {
    events == [] || (
      var before, last := events[..|events| - 1], events[|events| - 1];
      Interleaving(c, before) && Enabled(Reached(c, before), last))
  }

  function Reached(c: Config, events: seq<Event>): Hub
    requires Interleaving(c, events)
    decreases |events|, 1
  {
    if events == [] then Initial(c.slots, c.botSlots)
    else Moved(Reached(c, events[..|events| - 1]), c.most, c.ttl, events[|events| - 1])
  }

  function Successes(events: seq<Event>): nat {
    if events == [] then 0
    else Successes(events[..|events| - 1]) + if events[|events| - 1].Ends? && events[|events| - 1].ok then 1 else 0
  }

  /** In every interleaving: every exit gives back exactly the permits it took, an update is in flight
      exactly while one request has it, and `total_handled` counts the updates that were completed. */
  lemma {:induction false} AdmissionConserves(c: Config, events: seq<Event>)
    requires Interleaving(c, events)
    ensures Conserved(Reached(c, events), c.slots, c.botSlots)
    ensures Reached(c, events).handled == Successes(events)
  {
    if events == [] {
      var h := Reached(c, events);
      assert forall k :: Having(h.tasks, k) == {};
      forall b | b in h.bots ensures BotPermits(h, b, c.botSlots[b]) { }
    } else {
      var before, e := events[..|events| - 1], events[|events| - 1];
      AdmissionConserves(c, before);
      MoveConserves(c, Reached(c, before), e);
    }
  }

  lemma MoveConserves(c: Config, h: Hub, e: Event)
    requires Enabled(h, e) && Conserved(h, c.slots, c.botSlots)
    ensures Conserved(Moved(h, c.most, c.ttl, e), c.slots, c.botSlots)
    ensures Moved(h, c.most, c.ttl, e).handled == h.handled + if e.Ends? && e.ok then 1 else 0
  {
    ResolveTracks(h, c.most, c.ttl, e);
    StepConserves(h, e, Resolve(h, c.most, c.ttl, e), c.slots, c.botSlots);
    HandledCounts(h, e, Resolve(h, c.most, c.ttl, e));
  }

  lemma StepConserves(h: Hub, e: Event, v: Verdict, slots: nat, botSlots: map<string, nat>)
    requires Enabled(h, e) && Conserved(h, slots, botSlots) && Tracks(h, e, v)
    ensures Conserved(Applied(h, e, v), slots, botSlots)
  {
    StepKeepsPermits(h, e, v, slots, botSlots);
    StepKeepsOwned(h, e, v);
  }

  lemma HandledCounts(h: Hub, e: Event, v: Verdict)
    requires Enabled(h, e)
    ensures Applied(h, e, v).handled == h.handled + if e.Ends? && e.ok then 1 else 0
  {
  }

  lemma NoTaskNoFlight(tasks: map<nat, Task>, inflights: map<string, set<int>>, b: string)
    requires Owned(tasks, inflights) && tasks == map[] && b in inflights
    ensures inflights[b] == {}
  {
    forall u ensures u !in inflights[b] { assert !HasTask(tasks, b, u); }
  }

  predicate Leaves(e: Event) { e.Ends? || (e.Slot? && !e.granted) || (e.BotSlot? && !e.granted) }

  function Departures(events: seq<Event>): nat {
    if events == [] then 0 else Departures(events[..|events| - 1]) + One(Leaves(events[|events| - 1]))
  }

  /** How many updates `begin` answered `new`. */
  function Admissions(c: Config, events: seq<Event>): nat
    requires Interleaving(c, events)
  {
    if events == [] then 0
    else
      var before, last := events[..|events| - 1], events[|events| - 1];
      Admissions(c, before) + One(last.Arrives? && Resolve(Reached(c, before), c.most, c.ttl, last).answer == New)
  }

  /** Every update begun as new is completed or failed exactly once: by the one departure of its request,
      which is still in progress otherwise. */
  lemma {:induction false} EveryAdmissionDeparts(c: Config, events: seq<Event>)
    requires Interleaving(c, events)
    ensures Admissions(c, events) == Departures(events) + |Reached(c, events).tasks|
  {
    if events != [] {
      var before, last := events[..|events| - 1], events[|events| - 1];
      EveryAdmissionDeparts(c, before);
      TasksMove(Reached(c, before), last, Resolve(Reached(c, before), c.most, c.ttl, last));
    }
  }

  lemma TasksMove(h: Hub, e: Event, v: Verdict)
    requires Enabled(h, e)
    ensures |Applied(h, e, v).tasks| == |h.tasks| + One(e.Arrives? && v.answer == New) - One(Leaves(e))
  {
    SizeWithout(h.tasks.Keys, e.task);
    if Leaves(e) {
      assert Applied(h, e, v).tasks.Keys == h.tasks.Keys - {e.task};
    } else if e.Slot? || e.BotSlot? {
      assert Applied(h, e, v).tasks.Keys == h.tasks.Keys;
    }
  }

  /** When no request is left, every slot is free again and every counter is back at zero. */
  lemma NothingLeaks(c: Config, events: seq<Event>)
    requires Interleaving(c, events) && Reached(c, events).tasks == map[]
    ensures var h := Reached(c, events);
      h.free == c.slots && h.active == 0
      && forall b :: b in c.botSlots ==>
           b in h.bots && h.bots[b].free == c.botSlots[b] && h.bots[b].active == 0 && h.bots[b].dedup.inflight == {}
  {
    AdmissionConserves(c, events);
    var h := Reached(c, events);
    assert forall k :: Having(h.tasks, k) == {};
    forall b | b in c.botSlots
      ensures b in h.bots && h.bots[b].free == c.botSlots[b] && h.bots[b].active == 0 && h.bots[b].dedup.inflight == {}
    {
      assert BotPermits(h, b, c.botSlots[b]);
      NoTaskNoFlight(h.tasks, InFlights(h), b);
    }
  }

  /** Why the hub's counter is only a lower bound: a request turned away because its bot is busy counts
      it down without ever having counted it up.  A step keeps an exact counter exact if and only if it
      is not such a rejection with the counter above zero. */
  lemma CounterStaysExact(c: Config, events: seq<Event>, e: Event)
    requires Interleaving(c, events) && Enabled(Reached(c, events), e)
    requires Reached(c, events).active == Count(Reached(c, events).tasks, Runs)
    ensures var h := Reached(c, events); var h' := Moved(h, c.most, c.ttl, e);
      h'.active == Count(h'.tasks, Runs) <==> !(e.BotSlot? && !e.granted && h.active > 0)
  {
    CountsMove(Reached(c, events), e, Resolve(Reached(c, events), c.most, c.ttl, e), Runs);
  }

  // ----- totals -------------------------------------------------------------------------------------------

  /** The request of this event is handled now (`ok`), or turned away or failed. */
  predicate Closes(c: Config, h: Hub, e: Event, ok: bool)
    requires Enabled(h, e)
  {
    if ok then e.Ends? && e.ok
    else || (e.Ends? && !e.ok) || (e.Slot? && !e.granted) || (e.BotSlot? && !e.granted)
         || (e.Arrives? && Resolve(h, c.most, c.ttl, e).answer == InFlight)
  }

  /** How many requests, of one bot or of all, were closed in this way. */
  function Tally(c: Config, events: seq<Event>, ok: bool, bot: Option<string>): nat
    requires Interleaving(c, events)
  {
    if events == [] then 0
    else
      var before, e := events[..|events| - 1], events[|events| - 1];
      var h := Reached(c, before);
      Tally(c, before, ok, bot) + One(Closes(c, h, e, ok) && (bot.None? || bot.value == BotOf(h, e)))
  }

  function Arrivals(events: seq<Event>): nat {
    if events == [] then 0 else Arrivals(events[..|events| - 1]) + One(events[|events| - 1].Arrives?)
  }

  /** How many arrivals were answered as completed before. */
  function Duplicates(c: Config, events: seq<Event>): nat
    requires Interleaving(c, events)
  {
    if events == [] then 0
    else
      var before, e := events[..|events| - 1], events[|events| - 1];
      Duplicates(c, before) + One(e.Arrives? && Resolve(Reached(c, before), c.most, c.ttl, e).answer == Completed)
  }

  /** The totals of the hub and of every bot count exactly the requests handled and those turned away, and
      every arrival is a known duplicate, handled, turned away, or in progress. */
  lemma {:induction false} TotalsAreExact(c: Config, events: seq<Event>)
    requires Interleaving(c, events)
    ensures var h := Reached(c, events);
      && h.handled == Tally(c, events, true, None) && h.rejected == Tally(c, events, false, None)
      && (forall b :: b in h.bots ==>
            && h.bots[b].handled == Tally(c, events, true, Some(b))
            && h.bots[b].rejected == Tally(c, events, false, Some(b)))
      && Arrivals(events) == Duplicates(c, events) + h.handled + h.rejected + |h.tasks|
  {
    if events != [] {
      var before, e := events[..|events| - 1], events[|events| - 1];
      TotalsAreExact(c, before);
      TotalsMove(c, Reached(c, before), e);
      TasksMove(Reached(c, before), e, Resolve(Reached(c, before), c.most, c.ttl, e));
    }
  }

  lemma TotalsMove(c: Config, h: Hub, e: Event)
    requires Enabled(h, e)
    ensures var h' := Moved(h, c.most, c.ttl, e);
      && h'.handled == h.handled + One(Closes(c, h, e, true))
      && h'.rejected == h.rejected + One(Closes(c, h, e, false))
      && h'.bots.Keys == h.bots.Keys
      && forall b :: b in h.bots ==>
           && h'.bots[b].handled == h.bots[b].handled + One(Closes(c, h, e, true) && b == BotOf(h, e))
           && h'.bots[b].rejected == h.bots[b].rejected + One(Closes(c, h, e, false) && b == BotOf(h, e))
  {
  }

  ghost predicate StepsTo(c: Config, h: Hub, e: Event, next: Hub) {
    Enabled(h, e) && Moved(h, c.most, c.ttl, e) == next
  }

  /** A run given by its states. */
  lemma {:induction false} StatesAreReached(c: Config, events: seq<Event>, states: seq<Hub>, n: nat)
    requires |states| == |events| + 1 && n <= |events| && states[0] == Initial(c.slots, c.botSlots)
    requires forall i {:trigger events[i]} :: 0 <= i < |events| ==> StepsTo(c, states[i], events[i], states[i + 1])
    ensures Interleaving(c, events[..n]) && Reached(c, events[..n]) == states[n]
  {
    if n > 0 {
      StatesAreReached(c, events, states, n - 1);
      assert events[..n][..n - 1] == events[..n - 1];
      var e := events[n - 1];
      assert StepsTo(c, states[n - 1], e, states[n]);
    }
  }

  // ----- the miscount happens ---------------------------------------------------------------------------

  /** Two global slots, and one slot for the bot `b`. */
  function TwoSlots(): Config { Config(10, 100, 2, map["b" := 1]) }

  /** A hub with the one bot `b`, where no update was completed yet. */
  function OneBot(free: int, active: int, rejected: int, bot: Bot, tasks: map<nat, Task>): Hub {
    Hub(free, active, 0, rejected, map["b" := bot], tasks)
  }

  function BotWith(free: int, active: int, rejected: int, inflight: set<int>): Bot {
    Bot(free, active, 0, rejected, State([], inflight))
  }

  /** The first request is handled, the second finds a free slot but a busy bot. */
  function BusyBot(): seq<Event> {
    [Arrives(1, "b", 1, 0), Slot(1, true), BotSlot(1, true), Arrives(2, "b", 2, 0), Slot(2, true), BotSlot(2, false)]
  }

  /** What the hub is after the first `n` of these events. */
  function DuringBusyBot(n: nat): Hub
    requires n <= 6
  {
    if n == 0 then OneBot(2, 0, 0, BotWith(1, 0, 0, {}), map[])
    else if n == 1 then OneBot(2, 0, 0, BotWith(1, 0, 0, {1}), map[1 := Task("b", 1, WaitsForSlot)])
    else if n == 2 then OneBot(1, 0, 0, BotWith(1, 0, 0, {1}), map[1 := Task("b", 1, WaitsForBot)])
    else if n == 3 then OneBot(1, 1, 0, BotWith(0, 1, 0, {1}), map[1 := Task("b", 1, Handling)])
    else if n == 4 then OneBot(1, 1, 0, BotWith(0, 1, 0, {1, 2}),
                            map[1 := Task("b", 1, Handling), 2 := Task("b", 2, WaitsForSlot)])
    else if n == 5 then OneBot(0, 1, 0, BotWith(0, 1, 0, {1, 2}),
                            map[1 := Task("b", 1, Handling), 2 := Task("b", 2, WaitsForBot)])
    else OneBot(1, 0, 1, BotWith(0, 1, 1, {1}), map[1 := Task("b", 1, Handling)])
  }

  lemma ArrivesNew(free: int, active: int, rejected: int, bot: Bot, tasks: map<nat, Task>, t: nat, u: int)
    requires bot.dedup.completed == [] && u !in bot.dedup.inflight && t !in tasks
    ensures Enabled(OneBot(free, active, rejected, bot, tasks), Arrives(t, "b", u, 0))
    ensures Moved(OneBot(free, active, rejected, bot, tasks), 10, 100, Arrives(t, "b", u, 0)) ==
            OneBot(free, active, rejected, bot.(dedup := State([], bot.dedup.inflight + {u})),
                   tasks[t := Task("b", u, WaitsForSlot)])
  {
  }

  lemma GetsSlot(free: int, active: int, rejected: int, bot: Bot, tasks: map<nat, Task>, t: nat)
    requires t in tasks && tasks[t].bot == "b" && tasks[t].phase == WaitsForSlot && free > 0
    ensures Enabled(OneBot(free, active, rejected, bot, tasks), Slot(t, true))
    ensures Moved(OneBot(free, active, rejected, bot, tasks), 10, 100, Slot(t, true)) ==
            OneBot(free - 1, active, rejected, bot, tasks[t := tasks[t].(phase := WaitsForBot)])
  {
  }

  lemma GetsBot(free: int, active: int, rejected: int, bot: Bot, tasks: map<nat, Task>, t: nat)
    requires t in tasks && tasks[t].bot == "b" && tasks[t].phase == WaitsForBot && bot.free > 0
    ensures Enabled(OneBot(free, active, rejected, bot, tasks), BotSlot(t, true))
    ensures Moved(OneBot(free, active, rejected, bot, tasks), 10, 100, BotSlot(t, true)) ==
            OneBot(free, active + 1, rejected, bot.(free := bot.free - 1, active := bot.active + 1),
                   tasks[t := tasks[t].(phase := Handling)])
  {
  }

  lemma FindsBotBusy(free: int, active: int, rejected: int, bot: Bot, tasks: map<nat, Task>, t: nat)
    requires t in tasks && tasks[t].bot == "b" && tasks[t].phase == WaitsForBot
    ensures Enabled(OneBot(free, active, rejected, bot, tasks), BotSlot(t, false))
    ensures Moved(OneBot(free, active, rejected, bot, tasks), 10, 100, BotSlot(t, false)) ==
            OneBot(free + 1, Less(active), rejected + 1,
                   bot.(rejected := bot.rejected + 1, dedup := AfterFail(bot.dedup, tasks[t].update)), tasks - {t})
  {
  }

  /** Step `n` of the run. */
  ghost predicate BusyBotStep(n: nat)
    requires n < 6
  {
    StepsTo(TwoSlots(), DuringBusyBot(n), BusyBot()[n], DuringBusyBot(n + 1))
  }

  lemma RequestsArrive(n: nat)
    requires n == 0 || n == 3
    ensures BusyBotStep(n)
  {
    var h, u := DuringBusyBot(n), if n == 0 then 1 else 2;
    ArrivesNew(h.free, h.active, h.rejected, h.bots["b"], h.tasks, u, u);
    assert h.bots["b"].dedup.inflight + {u} == if n == 0 then {1} else {1, 2};
  }

  lemma FirstGetsSlot(n: nat)
    requires n == 1
    ensures BusyBotStep(n)
  {
    var h := DuringBusyBot(n);
    GetsSlot(h.free, h.active, h.rejected, h.bots["b"], h.tasks, 1);
    assert h.tasks[1 := Task("b", 1, WaitsForBot)] == map[1 := Task("b", 1, WaitsForBot)];
  }

  lemma SecondGetsSlot(n: nat)
    requires n == 4
    ensures BusyBotStep(n)
  {
    var h, waiting := DuringBusyBot(n), Task("b", 2, WaitsForBot);
    GetsSlot(h.free, h.active, h.rejected, h.bots["b"], h.tasks, 2);
    assert h.tasks[2 := waiting] == map[1 := Task("b", 1, Handling), 2 := waiting];
  }

  lemma FirstGetsBot(n: nat)
    requires n == 2
    ensures BusyBotStep(n)
  {
    var h := DuringBusyBot(n);
    GetsBot(h.free, h.active, h.rejected, h.bots["b"], h.tasks, 1);
  }

  lemma SecondIsRefused(n: nat)
    requires n == 5
    ensures BusyBotStep(n)
  {
    var h := DuringBusyBot(n);
    FindsBotBusy(h.free, h.active, h.rejected, h.bots["b"], h.tasks, 2);
    assert {1, 2} - {2} == {1};
    assert h.tasks - {2} == map[1 := Task("b", 1, Handling)];
  }

  lemma BusyBotSteps(n: nat)
    requires n < 6
    ensures BusyBotStep(n)
  {
    if n == 0 || n == 3 {
      RequestsArrive(n);
    } else if n == 1 {
      FirstGetsSlot(n);
    } else if n == 4 {
      SecondGetsSlot(n);
    } else if n == 2 {
      FirstGetsBot(n);
    } else {
      SecondIsRefused(n);
    }
  }

  lemma BusyBotReaches()
    ensures Interleaving(TwoSlots(), BusyBot()) && Reached(TwoSlots(), BusyBot()) == DuringBusyBot(6)
  {
    var c, events := TwoSlots(), BusyBot();
    var states := seq(7, i requires 0 <= i < 7 => DuringBusyBot(i));
    forall i {:trigger events[i]} | 0 <= i < 6 ensures StepsTo(c, states[i], events[i], states[i + 1]) {
      BusyBotSteps(i);
    }
    StatesAreReached(c, events, states, 6);
    assert events[..6] == events;
  }

  /** While the first request is being handled, the second is refused because the bot is busy, and the hub
      counts no running handler although there is one. */
  lemma BusyBotMiscounts()
    ensures Interleaving(TwoSlots(), BusyBot())
    ensures var h := Reached(TwoSlots(), BusyBot()); h.active == 0 && Count(h.tasks, Runs) == 1
  {
    BusyBotReaches();
    assert Having(DuringBusyBot(6).tasks, Runs) == {1};
  }
}
