/** `UpdateDeduplicator`: which Telegram updates are in progress and which were completed recently. */
module Dedup {
  import opened Prelude

  datatype Entry = Entry(id: int, stamp: int)

  datatype Disposition = Completed | InFlight | New

  /** The ordered map of completed updates, oldest position first. */
  type Entries = seq<Entry>

  function Ids(es: Entries): set<int> { set e | e in es :: e.id }

  ghost predicate Distinct(es: Entries) {
    forall i, j :: 0 <= i < j < |es| ==> es[i].id != es[j].id
  }

  predicate Expired(e: Entry, ttl: int, now: int) { now - e.stamp > ttl }

  /** How many entries expired before the first one that has not. */
  function LeadingExpired(es: Entries, ttl: int, now: int): (n: nat)
    ensures n <= |es| && (forall i :: 0 <= i < n ==> Expired(es[i], ttl, now))
    ensures n < |es| ==> !Expired(es[n], ttl, now)
  {
    if es == [] || !Expired(es[0], ttl, now) then 0 else 1 + LeadingExpired(es[1..], ttl, now)
  }

  /** How many entries are dropped from the front: the expired ones, and more if too many remain. */
  function Dropped(es: Entries, most: nat, ttl: int, now: int): (n: nat)
    ensures n <= |es| && |es| - n <= most
  {
    var n := LeadingExpired(es, ttl, now);
    if |es| - n > most then |es| - most else n
  }

  function Without(es: Entries, id: int): (r: Entries)
    ensures forall e :: e in r <==> e in es && e.id != id
    ensures |r| <= |es|
  {
    if es == [] then [] else if es[0].id == id then Without(es[1..], id) else [es[0]] + Without(es[1..], id)
  }

  function Find(es: Entries, id: int): (at: Option<nat>)
    ensures at.Some? ==> at.value < |es| && es[at.value].id == id
    ensures at.None? <==> id !in Ids(es)
  {
    if es == [] then None
    else if es[|es| - 1].id == id then Some(|es| - 1)
    else
      var n := |es| - 1;
      assert Ids(es) == Ids(es[..n]) + {es[n].id} by { assert es == es[..n] + [es[n]]; }
      Find(es[..n], id)
  }

  datatype State = State(completed: Entries, inflight: set<int>)

  function Pruned(s: State, most: nat, ttl: int, now: int): State {
    s.(completed := s.completed[Dropped(s.completed, most, ttl, now)..])
  }

  function MovedToEnd(es: Entries, id: int): (r: Entries) {
    var at := Find(es, id);
    if at.None? then es else Without(es, id) + [es[at.value]]
  }

  function Answer(s: State, most: nat, ttl: int, id: int, now: int): Disposition {
    var p := Pruned(s, most, ttl, now);
    if id in Ids(p.completed) then Completed else if id in p.inflight then InFlight else New
  }

  function AfterBegin(s: State, most: nat, ttl: int, id: int, now: int): State {
    var p := Pruned(s, most, ttl, now);
    match Answer(s, most, ttl, id, now)
    case Completed => p.(completed := MovedToEnd(p.completed, id))
    case InFlight => p
    case New => p.(inflight := p.inflight + {id})
  }

  /** `stamp` and `now` are two successive readings of the clock. */
  function AfterComplete(s: State, most: nat, ttl: int, id: int, stamp: int, now: int): State {
    Pruned(State(Without(s.completed, id) + [Entry(id, stamp)], s.inflight - {id}), most, ttl, now)
  }

  function AfterFail(s: State, id: int): State { s.(inflight := s.inflight - {id}) }

  class UpdateDeduplicator {
    const maxItems: nat
    const ttl: int
    var completed: Entries
    var inflight: set<int>

    constructor (maxItems: nat, ttl: int)
      ensures this.maxItems == maxItems && this.ttl == ttl && Contents() == State([], {})
    {
      this.maxItems, this.ttl, this.completed, this.inflight := maxItems, ttl, [], {};
    }

    function Contents(): State
      reads this
    {
      State(completed, inflight)
    }

    method Prune(now: int)
      modifies this`completed
      ensures Contents() == Pruned(old(Contents()), maxItems, ttl, now)
    {
      ghost var before, n := completed, 0;
      while completed != []
        invariant 0 <= n <= LeadingExpired(before, ttl, now) && completed == before[n..]
        decreases |completed|
      {
        if now - completed[0].stamp <= ttl { break; }
        completed, n := completed[1..], n + 1;
      }
      assert n == LeadingExpired(before, ttl, now);
      while |completed| > maxItems
        invariant LeadingExpired(before, ttl, now) <= n <= |before| && completed == before[n..]
        invariant n == LeadingExpired(before, ttl, now) || |completed| >= maxItems
        decreases |completed|
      {
        completed, n := completed[1..], n + 1;
      }
    }

    method Begin(id: int, now: int) returns (answer: Disposition)
      modifies this
      ensures answer == Answer(old(Contents()), maxItems, ttl, id, now)
      ensures Contents() == AfterBegin(old(Contents()), maxItems, ttl, id, now)
    {
      Prune(now);
      var at := Find(completed, id);
      if at.Some? {
        completed := Without(completed, id) + [completed[at.value]];
        return Completed;
      }
      if id in inflight { return InFlight; }
      inflight := inflight + {id};
      return New;
    }

    method Complete(id: int, stamp: int, now: int)
      modifies this
      ensures Contents() == AfterComplete(old(Contents()), maxItems, ttl, id, stamp, now)
    {
      inflight := inflight - {id};
      completed := Without(completed, id) + [Entry(id, stamp)];
      Prune(now);
    }

    method Fail(id: int)
      modifies this`inflight
      ensures Contents() == AfterFail(old(Contents()), id)
    {
      inflight := inflight - {id};
    }
  }

  // ----- every single call --------------------------------------------------------------------------

  /** In-flight and completed updates are disjoint, no update is listed twice, and the list is bounded. */
  ghost predicate Tidy(s: State, most: nat) {
    Distinct(s.completed) && Ids(s.completed) !! s.inflight && |s.completed| <= most
  }

  lemma PrunedIsTidy(s: State, most: nat, ttl: int, now: int)
    requires Distinct(s.completed) && Ids(s.completed) !! s.inflight
    ensures Tidy(Pruned(s, most, ttl, now), most)
    ensures Ids(Pruned(s, most, ttl, now).completed) <= Ids(s.completed)
  {
  }

  lemma {:induction false} WithoutIsDistinct(es: Entries, id: int)
    requires Distinct(es)
    ensures Distinct(Without(es, id))
    ensures id in Ids(es) ==> |Without(es, id)| < |es|
  {
    if es != [] {
      WithoutIsDistinct(es[1..], id);
      forall e | e in Without(es[1..], id) ensures e.id != es[0].id {
        var i :| 0 <= i < |es[1..]| && es[1..][i] == e;
        assert es[i + 1] == e;
      }
      if id in Ids(es) && es[0].id != id {
        var e :| e in es && e.id == id;
        assert e in es[1..];
      }
    }
  }

  lemma AppendIsDistinct(es: Entries, e: Entry)
    requires Distinct(es) && e.id !in Ids(es)
    ensures Distinct(es + [e]) && Ids(es + [e]) == Ids(es) + {e.id}
  {
  }

  lemma CallsKeepTidy(s: State, most: nat, ttl: int, id: int, stamp: int, now: int)
    requires Tidy(s, most)
    ensures Tidy(AfterBegin(s, most, ttl, id, now), most)
    ensures Tidy(AfterComplete(s, most, ttl, id, stamp, now), most)
    ensures Tidy(AfterFail(s, id), most)
  {
    PrunedIsTidy(s, most, ttl, now);
    var p := Pruned(s, most, ttl, now);
    WithoutIsDistinct(p.completed, id);
    WithoutIsDistinct(s.completed, id);
    AppendIsDistinct(Without(s.completed, id), Entry(id, stamp));
    PrunedIsTidy(State(Without(s.completed, id) + [Entry(id, stamp)], s.inflight - {id}), most, ttl, now);
    var at := Find(p.completed, id);
    if at.Some? { AppendIsDistinct(Without(p.completed, id), p.completed[at.value]); }
  }

  /** `begin` answers `completed` exactly if the update is listed and it, or something listed before
      it, has not expired. */
  lemma AnswersCompleted(s: State, most: nat, ttl: int, id: int, now: int)
    requires Tidy(s, most)
    ensures Answer(s, most, ttl, id, now) == Completed <==>
            exists i, j :: 0 <= i <= j < |s.completed| && s.completed[j].id == id && now - s.completed[i].stamp <= ttl
  {
  }

  /** A failed update is new again. */
  lemma FailedIsNew(s: State, most: nat, ttl: int, id: int, now: int)
    requires Tidy(s, most) && id in s.inflight
    ensures Answer(AfterFail(s, id), most, ttl, id, now) == New
  {
  }

  // ----- histories -------------------------------------------------------------------------------------

  datatype Call = Begin(id: int, now: int) | Complete(id: int, stamp: int, now: int) | Fail(id: int)

  function After(s: State, most: nat, ttl: int, c: Call): State {
    match c
    case Begin(id, now) => AfterBegin(s, most, ttl, id, now)
    case Complete(id, stamp, now) => AfterComplete(s, most, ttl, id, stamp, now)
    case Fail(id) => AfterFail(s, id)
  }

  function Reaches(most: nat, ttl: int, calls: seq<Call>): State {
    if calls == [] then State([], {})
    else After(Reaches(most, ttl, calls[..|calls| - 1]), most, ttl, calls[|calls| - 1])
  }

  lemma {:induction false} AlwaysTidy(most: nat, ttl: int, calls: seq<Call>)
    ensures Tidy(Reaches(most, ttl, calls), most)
  {
    if calls != [] {
      AlwaysTidy(most, ttl, calls[..|calls| - 1]);
      var c := calls[|calls| - 1];
      CallsKeepTidy(Reaches(most, ttl, calls[..|calls| - 1]), most, ttl, c.id, if c.Complete? then c.stamp else 0,
                    if c.Fail? then 0 else c.now);
    }
  }

  /** Whether `id` is held: begun as new and neither completed nor failed since. */
  function Held(most: nat, ttl: int, calls: seq<Call>, id: int): bool {
    if calls == [] then false
    else
      var before, c := calls[..|calls| - 1], calls[|calls| - 1];
      if c.id != id then Held(most, ttl, before, id)
      else if c.Begin? then
        Held(most, ttl, before, id) || Answer(Reaches(most, ttl, before), most, ttl, id, c.now) == New
      else false
  }

  /** At any time an update has at most one holder: whoever begins it while it is held is told that it
      is in flight, unless it is completed meanwhile. */
  lemma {:induction false} OneHolder(most: nat, ttl: int, calls: seq<Call>, id: int, now: int)
    ensures Held(most, ttl, calls, id) <==> id in Reaches(most, ttl, calls).inflight
    ensures Held(most, ttl, calls, id) ==> Answer(Reaches(most, ttl, calls), most, ttl, id, now) == InFlight
  {
    AlwaysTidy(most, ttl, calls);
    PrunedIsTidy(Reaches(most, ttl, calls), most, ttl, now);
    if calls != [] {
      var before, c := calls[..|calls| - 1], calls[|calls| - 1];
      OneHolder(most, ttl, before, id, now);
      HoldingChanges(Reaches(most, ttl, before), most, ttl, c, id);
    }
  }

  lemma HoldingChanges(s: State, most: nat, ttl: int, c: Call, id: int)
    ensures id in After(s, most, ttl, c).inflight <==>
            (id in s.inflight && (c.id != id || c.Begin?))
            || (c.Begin? && c.id == id && Answer(s, most, ttl, id, c.now) == New)
  {
  }

  // ----- retention ---------------------------------------------------------------------------------------

  /** `id` is listed with a stamp of at least `t`, and only `others` are listed after it. */
  ghost predicate Retained(s: State, id: int, t: int, others: set<int>) {
    exists p :: 0 <= p < |s.completed| && RetainedAt(s.completed, p, id, t, others)
  }

  ghost predicate RetainedAt(es: Entries, p: nat, id: int, t: int, others: set<int>)
    requires p < |es|
  {
    es[p].id == id && es[p].stamp >= t && forall k :: p < k < |es| ==> es[k].id in others
  }

  lemma {:induction false} FewAfter(es: Entries, p: nat, others: set<int>)
    requires p <= |es| && Distinct(es) && forall k :: p <= k < |es| ==> es[k].id in others
    ensures |es| - p <= |others|
    decreases |es|
  {
    if p < |es| {
      var n := |es| - 1;
      forall k | p <= k < n ensures es[..n][k].id in others - {es[n].id} { assert es[k].id != es[n].id; }
      FewAfter(es[..n], p, others - {es[n].id});
    }
  }

  /** Pruning does not reach an entry that has not expired and has fewer than `most` behind it. */
  lemma PruneRetains(s: State, most: nat, ttl: int, now: int, id: int, t: int, others: set<int>)
    requires Distinct(s.completed) && Retained(s, id, t, others) && now - t <= ttl && |others| < most
    ensures Retained(Pruned(s, most, ttl, now), id, t, others)
  {
    var es := s.completed;
    var p :| 0 <= p < |es| && RetainedAt(es, p, id, t, others);
    FewAfter(es, p + 1, others);
    var n := Dropped(es, most, ttl, now);
    assert !Expired(es[p], ttl, now);
    assert n <= p;
    assert RetainedAt(es[n..], p - n, id, t, others);
  }

  lemma WithoutRetains(es: Entries, p: nat, x: int, id: int, t: int, others: set<int>) returns (q: nat)
    requires p < |es| && RetainedAt(es, p, id, t, others) && x != id
    ensures q < |Without(es, x)| && RetainedAt(Without(es, x), q, id, t, others)
    decreases |es|
  {
    if p == 0 {
      q := 0;
      forall k | 0 < k < |Without(es, x)| ensures Without(es, x)[k].id in others {
        var rest := Without(es[1..], x);
        assert Without(es, x) == [es[0]] + rest && rest[k - 1] in rest;
        var i :| 0 <= i < |es[1..]| && es[1..][i] == rest[k - 1];
        assert es[i + 1] == rest[k - 1];
      }
    } else {
      assert RetainedAt(es[1..], p - 1, id, t, others) by {
        forall k | p - 1 < k < |es[1..]| ensures es[1..][k].id in others { assert es[k + 1].id in others; }
      }
      q := WithoutRetains(es[1..], p - 1, x, id, t, others);
      if es[0].id != x {
        var rest := Without(es[1..], x);
        assert Without(es, x) == [es[0]] + rest;
        q := q + 1;
        forall k | q < k < |Without(es, x)| ensures Without(es, x)[k].id in others { assert rest[k - 1].id in others; }
      }
    }
  }

  lemma AppendRetains(es: Entries, p: nat, e: Entry, id: int, t: int, others: set<int>)
    requires p < |es| && RetainedAt(es, p, id, t, others)
    ensures RetainedAt(es + [e], p, id, t, others + {e.id})
  {
  }

  /** The ids listed after `id` once the call is done, given those listed after it before. */
  function StillAfter(others: set<int>, answered: bool, c: Call, id: int): set<int> {
    if c.Fail? || (c.Begin? && !answered) then others
    else if c.id == id then {}
    else others + {c.id}
  }

  lemma CallRetains(s: State, most: nat, ttl: int, c: Call, id: int, t: int, others: set<int>)
    requires Tidy(s, most) && Retained(s, id, t, others) && |others| < most
    requires !c.Fail? ==> c.now - t <= ttl
    requires c.Complete? ==> t <= c.stamp && c.now - c.stamp <= ttl
    requires |StillAfter(others, c.Begin? && Answer(s, most, ttl, c.id, c.now) == Completed, c, id)| < most
    ensures Retained(After(s, most, ttl, c), id, t,
                     StillAfter(others, c.Begin? && Answer(s, most, ttl, c.id, c.now) == Completed, c, id))
    ensures c.Begin? && c.id == id ==> Answer(s, most, ttl, id, c.now) == Completed
  {
    match c {
      case Fail(_) =>
      case Complete(x, stamp, now) => CompleteRetains(s, most, ttl, x, stamp, now, id, t, others);
      case Begin(x, now) =>
        PruneRetains(s, most, ttl, now, id, t, others);
        PrunedIsTidy(s, most, ttl, now);
        var es := Pruned(s, most, ttl, now).completed;
        var p :| 0 <= p < |es| && RetainedAt(es, p, id, t, others);
        assert es[p] in es;
        TouchRetains(es, p, x, id, t, others);
    }
  }

  lemma TouchRetains(es: Entries, p: nat, x: int, id: int, t: int, others: set<int>)
    requires Distinct(es) && p < |es| && RetainedAt(es, p, id, t, others)
    ensures x in Ids(es) ==>
      Retained(State(MovedToEnd(es, x), {}), id, t, if x == id then {} else others + {x})
  {
    var at := Find(es, x);
    if at.Some? {
      var rest := Without(es, x);
      if x == id {
        assert at.value == p;
        assert RetainedAt(rest + [es[p]], |rest|, id, t, {});
      } else {
        var q := WithoutRetains(es, p, x, id, t, others);
        AppendRetains(rest, q, es[at.value], id, t, others);
      }
    }
  }

  lemma CompleteRetains(s: State, most: nat, ttl: int, x: int, stamp: int, now: int, id: int, t: int, others: set<int>)
    requires Tidy(s, most) && Retained(s, id, t, others) && now - t <= ttl && t <= stamp && now - stamp <= ttl
    requires |if x == id then {} else others + {x}| < most
    ensures Retained(AfterComplete(s, most, ttl, x, stamp, now), id, t, if x == id then {} else others + {x})
  {
    var rest := Without(s.completed, x);
    var more := State(rest + [Entry(x, stamp)], s.inflight - {x});
    WithoutIsDistinct(s.completed, x);
    AppendIsDistinct(rest, Entry(x, stamp));
    if x == id {
      assert RetainedAt(more.completed, |rest|, id, t, {});
    } else {
      var p :| 0 <= p < |s.completed| && RetainedAt(s.completed, p, id, t, others);
      var q := WithoutRetains(s.completed, p, x, id, t, others);
      AppendRetains(rest, q, Entry(x, stamp), id, t, others);
    }
    PruneRetains(more, most, ttl, now, id, t, if x == id then {} else others + {x});
  }

  /** Right after `id` was completed, or begun again and found completed, nothing is listed behind it. */
  lemma TouchedIsLast(s: State, most: nat, ttl: int, id: int, stamp: int, now: int)
    requires Tidy(s, most) && most > 0
    ensures now - stamp <= ttl ==> Retained(AfterComplete(s, most, ttl, id, stamp, now), id, stamp, {})
    ensures Answer(s, most, ttl, id, now) == Completed ==>
      forall t, others :: Retained(s, id, t, others) ==> Retained(AfterBegin(s, most, ttl, id, now), id, t, {})
  {
    if now - stamp <= ttl {
      var rest := Without(s.completed, id);
      var more := State(rest + [Entry(id, stamp)], s.inflight - {id});
      WithoutIsDistinct(s.completed, id);
      AppendIsDistinct(rest, Entry(id, stamp));
      assert RetainedAt(more.completed, |rest|, id, stamp, {});
      PruneRetains(more, most, ttl, now, id, stamp, {});
    }
    if Answer(s, most, ttl, id, now) == Completed {
      forall t, others | Retained(s, id, t, others) ensures Retained(AfterBegin(s, most, ttl, id, now), id, t, {}) {
        var p :| 0 <= p < |s.completed| && RetainedAt(s.completed, p, id, t, others);
        var n := Dropped(s.completed, most, ttl, now);
        var es := s.completed[n..];
        var q := Find(es, id).value;
        assert es[q] == s.completed[n + q];
        assert n + q == p;
        assert RetainedAt(Without(es, id) + [es[q]], |Without(es, id)|, id, t, {});
      }
    }
  }

  function StateAfter(s: State, most: nat, ttl: int, calls: seq<Call>): State {
    if calls == [] then s else After(StateAfter(s, most, ttl, calls[..|calls| - 1]), most, ttl, calls[|calls| - 1])
  }

  predicate Touches(s: State, most: nat, ttl: int, c: Call) {
    c.Complete? || (c.Begin? && Answer(s, most, ttl, c.id, c.now) == Completed)
  }

  /** The updates that were completed, or begun and found completed, by the calls. */
  function Touched(s: State, most: nat, ttl: int, calls: seq<Call>): set<int> {
    if calls == [] then {}
    else
      var before, c := calls[..|calls| - 1], calls[|calls| - 1];
      Touched(s, most, ttl, before) + if Touches(StateAfter(s, most, ttl, before), most, ttl, c) then {c.id} else {}
  }

  /** The clock stays between `t` and the moment at which a stamp of `t` expires. */
  predicate Within(c: Call, t: int, ttl: int) {
    (!c.Fail? ==> c.now <= t + ttl) && (c.Complete? ==> c.stamp >= t)
  }

  lemma {:induction false} RetainedThrough(s: State, most: nat, ttl: int, calls: seq<Call>, id: int, t: int)
    requires Tidy(s, most) && Retained(s, id, t, {})
    requires forall k :: 0 <= k < |calls| ==> Within(calls[k], t, ttl) && (calls[k].id == id ==> calls[k].Fail?)
    requires |Touched(s, most, ttl, calls)| < most
    ensures Tidy(StateAfter(s, most, ttl, calls), most)
    ensures Retained(StateAfter(s, most, ttl, calls), id, t, Touched(s, most, ttl, calls))
  {
    if calls != [] {
      var before, c := calls[..|calls| - 1], calls[|calls| - 1];
      assert Touched(s, most, ttl, before) <= Touched(s, most, ttl, calls);
      SubsetIsSmaller(Touched(s, most, ttl, before), Touched(s, most, ttl, calls));
      RetainedThrough(s, most, ttl, before, id, t);
      var x := StateAfter(s, most, ttl, before);
      CallsKeepTidy(x, most, ttl, c.id, if c.Complete? then c.stamp else 0, if c.Fail? then 0 else c.now);
      CallRetains(x, most, ttl, c, id, t, Touched(s, most, ttl, before));
    }
  }

  lemma SubsetIsSmaller(a: set<int>, b: set<int>)
    requires a <= b
    ensures |a| <= |b|
  {
    assert b == a + (b - a);
  }

  /** An update that was completed within the time to live is answered `completed`, as long as fewer than
      `most` other updates were completed or touched since it was last completed or touched itself. */
  lemma RecentIsRemembered(s: State, most: nat, ttl: int, calls: seq<Call>, id: int, t: int, now: int)
    requires Tidy(s, most) && Retained(s, id, t, {})
    requires forall k :: 0 <= k < |calls| ==> Within(calls[k], t, ttl) && (calls[k].id == id ==> calls[k].Fail?)
    requires |Touched(s, most, ttl, calls)| < most && now <= t + ttl
    ensures Answer(StateAfter(s, most, ttl, calls), most, ttl, id, now) == Completed
  {
    RetainedThrough(s, most, ttl, calls, id, t);
    CallRetains(StateAfter(s, most, ttl, calls), most, ttl, Begin(id, now), id, t, Touched(s, most, ttl, calls));
  }

  /** The time to live is no upper bound: an update touched again moves behind younger ones with its old
      stamp and is still answered `completed` after that stamp has expired. */
  lemma TouchedOutlivesItsStamp()
    ensures var one := AfterComplete(State([], {}), 10, 10, 1, 0, 0);
            var two := AfterComplete(one, 10, 10, 2, 5, 5);
            var touched := AfterBegin(two, 10, 10, 1, 9);
            Answer(touched, 10, 10, 1, 12) == Completed
  {
    CompleteUnlisted(State([], {}), 10, 10, 1, 0, 0);
    var one := AfterComplete(State([], {}), 10, 10, 1, 0, 0);
    assert one == State([Entry(1, 0)], {});
    CompleteUnlisted(one, 10, 10, 2, 5, 5);
    var two := AfterComplete(one, 10, 10, 2, 5, 5);
    assert two == State([Entry(1, 0), Entry(2, 5)], {});
    TouchFirstOfTwo(two, 10, 10, Entry(1, 0), Entry(2, 5), 9);
    var touched := AfterBegin(two, 10, 10, 1, 9);
    assert touched.completed[1] == Entry(1, 0);
    assert Entry(1, 0) in touched.completed;
  }

  lemma {:induction false} WithoutUnlisted(es: Entries, id: int)
    requires id !in Ids(es)
    ensures Without(es, id) == es
  {
    if es != [] {
      assert es == [es[0]] + es[1..] && es[0] in es;
      WithoutUnlisted(es[1..], id);
    }
  }

  lemma CompleteUnlisted(s: State, most: nat, ttl: int, id: int, stamp: int, now: int)
    requires id !in Ids(s.completed) && |s.completed| < most && now - stamp <= ttl
    requires s.completed != [] ==> !Expired(s.completed[0], ttl, now)
    ensures AfterComplete(s, most, ttl, id, stamp, now) == State(s.completed + [Entry(id, stamp)], s.inflight - {id})
  {
    WithoutUnlisted(s.completed, id);
  }

  lemma TouchFirstOfTwo(s: State, most: nat, ttl: int, a: Entry, b: Entry, now: int)
    requires s.completed == [a, b] && a.id != b.id && most >= 2 && !Expired(a, ttl, now)
    ensures AfterBegin(s, most, ttl, a.id, now) == s.(completed := [b, a])
  {
  }
}
