/** Cached views of stored records and their custody.
  *
  * Handlers run interleaved and give way only while they wait for storage or for the
  * narrator. `Shared` is what they share in memory, `Api` the object that changes it, one
  * method per uninterrupted stretch of a handler; `System` adds the repository and the
  * handlers that are waiting, and `Step` lets any of them take its next stretch.
  */
module ViewCache {
  import opened Adjudicating
  import opened Scoring
  import Cost
  import Pipelines
  import opened Wrappers

  const VIEW_CACHE_MAX: nat := 512
  const STATE_CACHE_MAX: nat := 512

  datatype Assignment = Assignment(username: string, name: string, assignedBy: string, at: real)

  /** A finished inspection as it is stored. */
  datatype Record = Record(id: string, unit: string, station: string, qc: Pipelines.QCState) {
    predicate Defective() { qc.fusion.Some? && qc.fusion.value.verdict != Pass }
  }

  datatype SpanView = AgentSpan(span: Pipelines.Span) | NarrativeSpan(summary: string)

  datatype Narrative = Narrative(text: string, provenance: string)

  datatype View = View(
    id: string, unit: string, station: string, verdict: Verdict, severity: Severity, confidence: real,
    fusionOnly: bool, primary: SignalKind, disposition: Cost.Disposition, cost: real, low: real, high: real,
    requiresHuman: bool, spans: seq<SpanView>, narrative: Option<Narrative>, custody: Option<Assignment>)

  function SpanViews(trace: seq<Pipelines.Span>): seq<SpanView> {
    seq(|trace|, i requires 0 <= i < |trace| => AgentSpan(trace[i]))
  }

  /** Rendering a record: an unadjudicated one reads ESCALATE and QUARANTINE. */
  function Render(r: Record, custody: Option<Assignment>): View {
    var a := if r.qc.fusion.Some? then r.qc.fusion.value
             else Adjudication(Escalate, Major, 0.0, NoSignal, false, false);
    var d := if r.qc.triage.Some? then r.qc.triage.value
             else Pipelines.TriageResult(Cost.Quarantine, 0.0, 0.0, 0.0, false);
    View(r.id, r.unit, r.station, a.verdict, a.severity, a.confidence, a.fusionOnly, a.primary,
         d.recommended, d.cost, d.low, d.high, d.requiresHuman, SpanViews(r.qc.trace), None, custody)
  }

  function Lookup<K, V>(m: map<K, V>, key: K): Option<V> {
    if key in m then Some(m[key]) else None
  }

  // ------------------------------------------------------------------
  // Ordered dictionaries with a bound
  // ------------------------------------------------------------------

  /** Keys from least to most recently used, and their values. */
  datatype Lru<V> = Lru(order: seq<string>, items: map<string, V>)

  ghost predicate Distinct(order: seq<string>) {
    forall i, j :: 0 <= i < j < |order| ==> order[i] != order[j]
  }

  ghost predicate Valid<V>(l: Lru<V>) {
    Distinct(l.order) && forall k :: k in l.order <==> k in l.items
  }

  function Without(order: seq<string>, id: string): (r: seq<string>)
    ensures id !in r && |r| <= |order| && (id !in order ==> r == order)
    ensures forall k :: k != id ==> (k in r <==> k in order)
  {
    if order == [] then []
    else
      assert order == order[..|order| - 1] + [order[|order| - 1]];
      Without(order[..|order| - 1], id) + if order[|order| - 1] == id then [] else [order[|order| - 1]]
  }

  /** Assign and `move_to_end`. */
  function Store<V>(l: Lru<V>, id: string, v: V): Lru<V> {
    Lru(Without(l.order, id) + [id], l.items[id := v])
  }

  /** `popitem(last=False)` until the bound holds. */
  function Trim<V>(l: Lru<V>, bound: nat): Lru<V>
    decreases |l.order|
  {
    if |l.order| <= bound then l else Trim(Lru(l.order[1..], l.items - {l.order[0]}), bound)
  }

  function Put<V>(l: Lru<V>, id: string, v: V, bound: nat): Lru<V> { Trim(Store(l, id, v), bound) }

  function Touch<V>(l: Lru<V>, id: string): Lru<V> {
    if id in l.items then l.(order := Without(l.order, id) + [id]) else l
  }

  function Drop<V>(l: Lru<V>, id: string): Lru<V> { Lru(Without(l.order, id), l.items - {id}) }

  // ------------------------------------------------------------------
  // What the handlers share, and their uninterrupted stretches
  // ------------------------------------------------------------------

  datatype Shared = Shared(
    states: Lru<Record>, views: Lru<View>, assignments: map<string, Assignment>, counter: nat)

  const SHOP_FLOOR_WORKERS: seq<(string, string)> := [("ravi", "Ravi Verma"), ("aarav", "Aarav Singh")]

  function AutoAssignment(counter: nat, now: real): Assignment {
    var worker := SHOP_FLOOR_WORKERS[counter % |SHOP_FLOOR_WORKERS|];
    Assignment(worker.0, worker.1, "System (Auto-assignment)", now)
  }

  /** Creating, first stretch: remember the state, then wait for the save. */
  function Remember(p: Shared, r: Record): Shared {
    p.(states := Put(p.states, r.id, r, STATE_CACHE_MAX))
  }

  /** Render from the record and the current assignment, and cache. */
  function Fill(p: Shared, r: Record): Shared {
    p.(views := Put(p.views, r.id, Render(r, Lookup(p.assignments, r.id)), VIEW_CACHE_MAX))
  }

  /** Creating, after the save: assign a defective unit to the next worker, render, cache. */
  function Publish(p: Shared, r: Record, now: real): Shared {
    Fill(if r.Defective()
         then p.(assignments := p.assignments[r.id := AutoAssignment(p.counter, now)], counter := p.counter + 1)
         else p,
         r)
  }

  function Assign(p: Shared, id: string, a: Assignment): Shared {
    p.(assignments := p.assignments[id := a], views := Drop(p.views, id))
  }

  /** The narrator's answer, written onto the cached view if it is still there. */
  function Narrate(p: Shared, id: string, n: Narrative, summary: string): Shared {
    if id !in p.views.items then p
    else
      var v := p.views.items[id];
      var told := v.(narrative := Some(n), spans := v.spans + [NarrativeSpan(summary)]);
      p.(views := p.views.(items := p.views.items[id := told]))
  }

  class Api {
    var stateOrder: seq<string>
    var states: map<string, Record>
    var viewOrder: seq<string>
    var views: map<string, View>
    var assignments: map<string, Assignment>
    var counter: nat

    function Now(): Shared
      reads this
    {
      Shared(Lru(stateOrder, states), Lru(viewOrder, views), assignments, counter)
    }

    constructor (assignments: map<string, Assignment>)
      ensures Now() == Shared(Lru([], map[]), Lru([], map[]), assignments, 0)
    {
      stateOrder, states, viewOrder, views := [], map[], [], map[];
      this.assignments, counter := assignments, 0;
    }

    method Persist(r: Record)
      modifies this`stateOrder, this`states
      ensures Now() == Remember(old(Now()), r)
    {
      states := states[r.id := r];
      stateOrder := Without(stateOrder, r.id) + [r.id];
      while |stateOrder| > STATE_CACHE_MAX
        invariant Trim(Lru(stateOrder, states), STATE_CACHE_MAX) == Remember(old(Now()), r).states
        decreases |stateOrder|
      {
        states := states - {stateOrder[0]};
        stateOrder := stateOrder[1..];
      }
    }

    method CacheView(v: View)
      modifies this`viewOrder, this`views
      ensures Now() == old(Now()).(views := Put(old(Now()).views, v.id, v, VIEW_CACHE_MAX))
    {
      views := views[v.id := v];
      viewOrder := Without(viewOrder, v.id) + [v.id];
      while |viewOrder| > VIEW_CACHE_MAX
        invariant Trim(Lru(viewOrder, views), VIEW_CACHE_MAX) == Put(old(Now()).views, v.id, v, VIEW_CACHE_MAX)
        decreases |viewOrder|
      {
        views := views - {viewOrder[0]};
        viewOrder := viewOrder[1..];
      }
    }

    /** The creating handler once its save has been awaited. */
    method FinishCreating(r: Record, now: real) returns (v: View)
      modifies this
      ensures Now() == Publish(old(Now()), r, now)
      ensures v == Render(r, Lookup(assignments, r.id))
    {
      if r.qc.fusion.Some? && r.qc.fusion.value.verdict != Pass {
        var worker := SHOP_FLOOR_WORKERS[counter % |SHOP_FLOOR_WORKERS|];
        counter := counter + 1;
        assignments := assignments[r.id := Assignment(worker.0, worker.1, "System (Auto-assignment)", now)];
      }
      v := Render(r, Lookup(assignments, r.id));
      CacheView(v);
    }

    /** Resolving, first stretch: the cached view, now the most recently used, or nothing. */
    method Hit(id: string) returns (v: Option<View>)
      modifies this`viewOrder
      ensures v == Lookup(old(views), id)
      ensures Now() == old(Now()).(views := Touch(old(Now()).views, id))
    {
      v := Lookup(views, id);
      if v.Some? { viewOrder := Without(viewOrder, id) + [id]; }
    }

    /** Resolving, after the repository has answered. */
    method FinishResolving(found: Option<Record>) returns (v: Option<View>)
      modifies this`viewOrder, this`views
      ensures found.None? ==> v == None && Now() == old(Now())
      ensures found.Some? ==> v == Some(Render(found.value, Lookup(assignments, found.value.id)))
                              && Now() == Fill(old(Now()), found.value)
    {
      if found.None? { return None; }
      v := Some(Render(found.value, Lookup(assignments, found.value.id)));
      CacheView(v.value);
    }

    /** Assigning, once the record is known: set the custody and drop the stale view. */
    method FinishAssigning(id: string, a: Assignment)
      modifies this`assignments, this`viewOrder, this`views
      ensures Now() == Assign(old(Now()), id, a)
    {
      assignments := assignments[id := a];
      views := views - {id};
      viewOrder := Without(viewOrder, id);
    }

    method Tell(id: string, n: Narrative, summary: string)
      modifies this`views
      ensures Now() == Narrate(old(Now()), id, n, summary)
    {
      if id in views {
        var v := views[id].(narrative := Some(n));
        views := views[id := v.(spans := v.spans + [NarrativeSpan(summary)])];
      }
    }
  }

  // ------------------------------------------------------------------
  // The interleaved system
  // ------------------------------------------------------------------

  /** Where a waiting handler stands. */
  datatype Task =
    | Saving(record: Record)
    | Saved(record: Record)
    | Narrating(record: Record)
    | Reading(id: string)
    | Read(found: Option<Record>)
    | AssignReading(id: string, assignment: Assignment)
    | AssignRead(found: Option<Record>, assignment: Assignment)
  {
    /** Handlers of the request that made the record. */
    predicate Creating() { Saving? || Saved? || Narrating? }
  }

  /** `issued` is every correlation id handed out so far; ids are fresh. */
  datatype System = System(process: Shared, repo: map<string, Record>, issued: set<string>, tasks: map<nat, Task>)

  datatype Event =
    | Create(task: nat, record: Record)
    | SaveCommits(task: nat)
    | SaveFails(task: nat)
    | Finish(task: nat, now: real)
    | Narrated(task: nat, narrative: Narrative, summary: string)
    | NarrationFails(task: nat)
    | Resolve(task: nat, id: string)
    | Ask(task: nat, id: string, assignment: Assignment)
    | RepositoryAnswers(task: nat)
    | Resume(task: nat)

  /** A restart: durable records and assignments, nothing cached, nobody waiting. */
  function Boot(repo: map<string, Record>, assignments: map<string, Assignment>): System {
    System(Shared(Lru([], map[]), Lru([], map[]), assignments, 0), repo, repo.Keys, map[])
  }

  function Wait(s: System, task: nat, t: Task): System { s.(tasks := s.tasks[task := t]) }

  function Done(s: System, task: nat, p: Shared): System { s.(process := p, tasks := s.tasks - {task}) }

  /** An event that is not enabled changes nothing. */
  function Step(s: System, e: Event): System {
    match e
    case Create(task, r) =>
      if task in s.tasks || r.id in s.issued then s
      else Wait(s, task, Saving(r)).(process := Remember(s.process, r), issued := s.issued + {r.id})
    case Resolve(task, id) =>
      if task in s.tasks then s
      else if id in s.process.views.items then s.(process := s.process.(views := Touch(s.process.views, id)))
      else Wait(s, task, Reading(id))
    case Ask(task, id, a) =>
      if task in s.tasks then s
      else if id in s.process.states.items then s.(process := Assign(s.process, s.process.states.items[id].id, a))
      else Wait(s, task, AssignReading(id, a))
    case _ => if e.task in s.tasks then Continue(s, e, s.tasks[e.task]) else s
  }

  function Continue(s: System, e: Event, t: Task): System {
    match (e, t)
    case (SaveCommits(task), Saving(r)) => Wait(s, task, Saved(r)).(repo := s.repo[r.id := r])
    case (SaveFails(task), Saving(_)) => Done(s, task, s.process)
    case (SaveFails(task), Saved(_)) => Done(s, task, s.process)
    case (Finish(task, now), Saved(r)) => Wait(s, task, Narrating(r)).(process := Publish(s.process, r, now))
    case (Narrated(task, n, summary), Narrating(r)) => Done(s, task, Narrate(s.process, r.id, n, summary))
    case (NarrationFails(task), Narrating(_)) => Done(s, task, s.process)
    case (RepositoryAnswers(task), Reading(id)) => Wait(s, task, Read(Lookup(s.repo, id)))
    case (RepositoryAnswers(task), AssignReading(id, a)) => Wait(s, task, AssignRead(Lookup(s.repo, id), a))
    case (Resume(task), Read(found)) => Done(s, task, if found.Some? then Fill(s.process, found.value) else s.process)
    case (Resume(task), AssignRead(found, a)) =>
      Done(s, task, if found.Some? then Assign(s.process, found.value.id, a) else s.process)
    case _ => s
  }

  function Run(s: System, es: seq<Event>): System
    decreases |es|
  {
    if es == [] then s else Run(Step(s, es[0]), es[1..])
  }

  // ------------------------------------------------------------------
  // The invariant
  // ------------------------------------------------------------------

  /** `v` is `base` with at most one narrative written onto it. */
  ghost predicate SameButNarrative(v: View, base: View) {
    if v.narrative.None? then v == base
    else exists summary :: v == base.(narrative := v.narrative, spans := base.spans + [NarrativeSpan(summary)])
  }

  ghost predicate Fresh(s: System, id: string, v: View) {
    id in s.repo && SameButNarrative(v, Render(s.repo[id], Lookup(s.process.assignments, id)))
  }

  ghost predicate Coherent(s: System) {
    forall id :: id in s.process.views.items ==> Fresh(s, id, s.process.views.items[id])
  }

  ghost predicate Bounded(p: Shared) {
    && Valid(p.states) && |p.states.order| <= STATE_CACHE_MAX
    && Valid(p.views) && |p.views.order| <= VIEW_CACHE_MAX
  }

  /** The repository and the state cache file every record under its own id and agree. */
  ghost predicate Filed(s: System) {
    && (forall id :: id in s.repo ==> s.repo[id].id == id && id in s.issued)
    && (forall id :: id in s.process.states.items ==>
          s.process.states.items[id].id == id && id in s.issued
          && (id in s.repo ==> s.repo[id] == s.process.states.items[id]))
  }

  ghost predicate TaskOk(s: System, t: Task) {
    match t
    case Saving(r) => r.id in s.issued && r.id !in s.repo
                      && (r.id in s.process.states.items ==> s.process.states.items[r.id] == r)
    case Saved(r) => Stored(s, r) && Untold(s.process, r.id)
    case Narrating(r) => Stored(s, r) && Untold(s.process, r.id)
    case Reading(_) => true
    case Read(found) => found.Some? ==> Stored(s, found.value)
    case AssignReading(_, _) => true
    case AssignRead(found, _) => found.Some? ==> Stored(s, found.value)
  }

  ghost predicate Stored(s: System, r: Record) { r.id in s.issued && r.id in s.repo && s.repo[r.id] == r }

  ghost predicate Untold(p: Shared, id: string) { id in p.views.items ==> p.views.items[id].narrative.None? }

  ghost predicate OneCreator(tasks: map<nat, Task>) {
    forall t, u ::
      (t in tasks && u in tasks && tasks[t].Creating() && tasks[u].Creating()
       && tasks[t].record.id == tasks[u].record.id) ==> t == u
  }

  ghost predicate Inv(s: System) {
    && Bounded(s.process)
    && Filed(s)
    && Coherent(s)
    && OneCreator(s.tasks)
    && (forall t :: t in s.tasks ==> TaskOk(s, s.tasks[t]))
  }

  // ------------------------------------------------------------------
  // Ordered dictionaries: what each operation keeps
  // ------------------------------------------------------------------

  lemma {:induction false} WithoutDistinct(order: seq<string>, id: string)
    requires Distinct(order)
    ensures Distinct(Without(order, id))
    ensures id in order ==> |Without(order, id)| == |order| - 1
  {
    if order == [] {
    } else {
      var k := |order| - 1;
      assert order == order[..k] + [order[k]];
      WithoutDistinct(order[..k], id);
      assert order[k] !in order[..k];
    }
  }

  lemma TouchKeeps<V>(l: Lru<V>, id: string)
    requires Valid(l)
    ensures Valid(Touch(l, id)) && |Touch(l, id).order| == |l.order| && Touch(l, id).items == l.items
  {
    WithoutDistinct(l.order, id);
  }

  lemma DropKeeps<V>(l: Lru<V>, id: string)
    requires Valid(l)
    ensures Valid(Drop(l, id)) && |Drop(l, id).order| <= |l.order|
    ensures Drop(l, id).items == l.items - {id}
  {
    WithoutDistinct(l.order, id);
  }

  /** Trimming a dictionary that is at most one entry over its bound. */
  lemma TrimOne<V>(l: Lru<V>, bound: nat)
    requires Valid(l) && |l.order| <= bound + 1
    ensures Valid(Trim(l, bound)) && |Trim(l, bound).order| <= bound
    ensures Trim(l, bound) == if |l.order| <= bound then l else Lru(l.order[1..], l.items - {l.order[0]})
  {
    if |l.order| > bound {
      assert forall k :: k in l.order[1..] <==> k in l.order && k != l.order[0];
    }
  }

  lemma StoreKeeps<V>(l: Lru<V>, id: string, v: V)
    requires Valid(l)
    ensures Valid(Store(l, id, v)) && |Store(l, id, v).order| <= |l.order| + 1
  {
    WithoutDistinct(l.order, id);
  }

  lemma PutKeeps<V>(l: Lru<V>, id: string, v: V, bound: nat)
    requires Valid(l) && |l.order| <= bound && bound > 0
    ensures var after := Put(l, id, v, bound);
            && Valid(after) && |after.order| <= bound
            && id in after.items && after.items[id] == v
            && forall k :: k in after.items && k != id ==> k in l.items && after.items[k] == l.items[k]
  {
    StoreKeeps(l, id, v);
    var stored := Store(l, id, v);
    TrimOne(stored, bound);
    assert stored.order[|stored.order| - 1] == id;
  }

  // ------------------------------------------------------------------
  // Every step keeps the invariant
  // ------------------------------------------------------------------

  lemma FillKeeps(p: Shared, r: Record)
    requires Bounded(p)
    ensures var q := Fill(p, r);
            && Bounded(q) && q == p.(views := q.views)
            && r.id in q.views.items && q.views.items[r.id] == Render(r, Lookup(p.assignments, r.id))
            && forall k :: k in q.views.items && k != r.id ==>
                 k in p.views.items && q.views.items[k] == p.views.items[k]
  {
    hide Put, Valid, Render;
    PutKeeps(p.views, r.id, Render(r, Lookup(p.assignments, r.id)), VIEW_CACHE_MAX);
  }

  lemma CreateKeeps(s: System, task: nat, r: Record)
    requires Inv(s) && task !in s.tasks && r.id !in s.issued
    ensures Inv(Step(s, Create(task, r)))
  {
    hide Put, Valid, Render, SameButNarrative;
    PutKeeps(s.process.states, r.id, r, STATE_CACHE_MAX);
  }

  lemma CommitKeeps(s: System, task: nat)
    requires Inv(s) && task in s.tasks && s.tasks[task].Saving?
    ensures Inv(Step(s, SaveCommits(task)))
  {
    hide Valid, Render, SameButNarrative;
  }

  lemma PublishKeeps(s: System, task: nat, now: real)
    requires Inv(s) && task in s.tasks && s.tasks[task].Saved?
    ensures Inv(Step(s, Finish(task, now)))
  {
    hide Put, Valid, Render, AutoAssignment, Fill, Record.Defective, SameButNarrative;
    var r := s.tasks[task].record;
    var p := if r.Defective()
             then s.process.(assignments := s.process.assignments[r.id := AutoAssignment(s.process.counter, now)],
                             counter := s.process.counter + 1)
             else s.process;
    FillKeeps(p, r);
    RenderUntold(r, Lookup(p.assignments, r.id));
  }

  lemma RenderUntold(r: Record, custody: Option<Assignment>)
    ensures Render(r, custody).narrative.None? && SameButNarrative(Render(r, custody), Render(r, custody))
  {
  }

  lemma NarrateOnly(p: Shared, id: string, base: View, n: Narrative, summary: string)
    requires id in p.views.items ==> p.views.items[id] == base && base.narrative.None?
    ensures
      var q := Narrate(p, id, n, summary);
      && q == p.(views := p.views.(items := q.views.items)) && q.views.items.Keys == p.views.items.Keys
      && (forall k :: k in q.views.items && k != id ==> q.views.items[k] == p.views.items[k])
      && (id in q.views.items ==> q.views.items[id].narrative == Some(n) && SameButNarrative(q.views.items[id], base))
  {
  }

  lemma TellKeeps(s: System, task: nat, n: Narrative, summary: string)
    requires Inv(s) && task in s.tasks && s.tasks[task].Narrating?
    ensures Inv(Step(s, Narrated(task, n, summary)))
  {
    hide Distinct, Render, SameButNarrative, Narrate;
    var r := s.tasks[task].record;
    var base := Render(r, Lookup(s.process.assignments, r.id));
    assert r.id in s.process.views.items ==> Fresh(s, r.id, s.process.views.items[r.id]);
    UntoldIsBase(s, r);
    NarrateOnly(s.process, r.id, base, n, summary);
  }

  lemma UntoldIsBase(s: System, r: Record)
    requires Stored(s, r) && Untold(s.process, r.id)
    requires r.id in s.process.views.items ==> Fresh(s, r.id, s.process.views.items[r.id])
    ensures
      var base := Render(r, Lookup(s.process.assignments, r.id));
      base.narrative.None? && (r.id in s.process.views.items ==> s.process.views.items[r.id] == base)
  {
  }

  lemma AssignKeeps(s: System, id: string, a: Assignment)
    requires Inv(s)
    ensures Inv(s.(process := Assign(s.process, id, a)))
  {
    hide Valid, Drop, Render, SameButNarrative;
    DropKeeps(s.process.views, id);
  }

  lemma FillReadKeeps(s: System, r: Record)
    requires Inv(s) && Stored(s, r)
    ensures Inv(s.(process := Fill(s.process, r)))
  {
    hide Put, Valid, Render, Fill;
    FillKeeps(s.process, r);
    RenderUntold(r, Lookup(s.process.assignments, r.id));
  }

  lemma DoneKeeps(s: System, task: nat, p: Shared)
    requires Inv(s.(process := p))
    ensures Inv(Done(s, task, p))
  {
    hide Valid, SameButNarrative;
  }

  /** Starting to wait, or having the repository's answer in hand. */
  lemma WaitKeeps(s: System, task: nat, t: Task)
    requires Inv(s) && TaskOk(s, t) && !t.Creating()
    ensures Inv(Wait(s, task, t))
  {
    hide Valid, SameButNarrative;
  }

  lemma HitKeeps(s: System, id: string)
    requires Inv(s)
    ensures Inv(s.(process := s.process.(views := Touch(s.process.views, id))))
  {
    hide Valid, SameButNarrative, Touch;
    TouchKeeps(s.process.views, id);
  }

  lemma AnswerKeeps(s: System, task: nat)
    requires Inv(s) && task in s.tasks
    ensures Inv(Step(s, RepositoryAnswers(task)))
  {
    hide Coherent, Bounded, OneCreator;
    match s.tasks[task] {
      case Reading(id) => WaitKeeps(s, task, Read(Lookup(s.repo, id)));
      case AssignReading(id, a) => WaitKeeps(s, task, AssignRead(Lookup(s.repo, id), a));
      case _ =>
    }
  }

  lemma ResumeKeeps(s: System, task: nat)
    requires Inv(s) && task in s.tasks
    ensures Inv(Step(s, Resume(task)))
  {
    hide Coherent, Bounded, OneCreator, Filed, Assign, Fill;
    match s.tasks[task] {
      case Read(Some(r)) =>
        FillReadKeeps(s, r);
        DoneKeeps(s, task, Fill(s.process, r));
      case Read(None) => DoneKeeps(s, task, s.process);
      case AssignRead(Some(r), a) =>
        AssignKeeps(s, r.id, a);
        DoneKeeps(s, task, Assign(s.process, r.id, a));
      case AssignRead(None, a) => DoneKeeps(s, task, s.process);
      case _ =>
    }
  }

  /** Every stretch of every handler keeps the invariant. */
  lemma StepKeepsInvariant(s: System, e: Event)
    requires Inv(s)
    ensures Inv(Step(s, e))
  {
    hide Inv, Assign, Fill, Publish, Remember, Narrate, Touch;
    match e {
      case Create(task, r) => if task !in s.tasks && r.id !in s.issued { CreateKeeps(s, task, r); }
      case Resolve(task, id) =>
        HitKeeps(s, id);
        StartKeeps(s, task, Reading(id));
      case Ask(task, id, a) =>
        if id in s.process.states.items { AssignKeeps(s, s.process.states.items[id].id, a); }
        StartKeeps(s, task, AssignReading(id, a));
      case _ => if e.task in s.tasks { ContinueKeeps(s, e); }
    }
  }

  lemma StartKeeps(s: System, task: nat, t: Task)
    requires Inv(s) && (t.Reading? || t.AssignReading?)
    ensures Inv(Wait(s, task, t))
  {
    WaitKeeps(s, task, t);
  }

  lemma ContinueKeeps(s: System, e: Event)
    requires Inv(s) && e.task in s.tasks && !e.Create? && !e.Resolve? && !e.Ask?
    ensures Inv(Step(s, e))
  {
    hide Inv, Assign, Fill, Publish, Remember, Narrate, Touch;
    match e {
      case SaveCommits(task) => if s.tasks[task].Saving? { CommitKeeps(s, task); }
      case Finish(task, now) => if s.tasks[task].Saved? { PublishKeeps(s, task, now); }
      case Narrated(task, n, summary) => if s.tasks[task].Narrating? { TellKeeps(s, task, n, summary); }
      case RepositoryAnswers(task) => AnswerKeeps(s, task);
      case Resume(task) => ResumeKeeps(s, task);
      case _ => DoneKeeps(s, e.task, s.process);
    }
  }

  // ------------------------------------------------------------------
  // Whole runs
  // ------------------------------------------------------------------

  /** What a restart may find in durable storage: records filed under their own ids. */
  ghost predicate Durable(repo: map<string, Record>) { forall id :: id in repo ==> repo[id].id == id }

  lemma BootHolds(repo: map<string, Record>, assignments: map<string, Assignment>)
    requires Durable(repo)
    ensures Inv(Boot(repo, assignments))
  {
  }

  /** After any interleaving from a restart: every cached view is the stored record rendered with
    * the current assignment, narrative aside, and neither cache is over its bound. */
  lemma {:induction false} RunKeepsInvariant(s: System, es: seq<Event>)
    requires Inv(s)
    ensures Inv(Run(s, es))
    decreases |es|
  {
    if es == [] {
    } else {
      hide Inv, Step;
      StepKeepsInvariant(s, es[0]);
      RunKeepsInvariant(Step(s, es[0]), es[1..]);
    }
  }

  lemma {:induction false} DistinctCount(order: seq<string>, keys: set<string>)
    requires Distinct(order) && forall k :: k in order <==> k in keys
    ensures |order| == |keys|
  {
    if order == [] {
      assert keys == {};
    } else {
      var k := |order| - 1;
      assert order == order[..k] + [order[k]];
      assert order[k] !in order[..k];
      DistinctCount(order[..k], keys - {order[k]});
    }
  }

  lemma ViewsStayCoherent(repo: map<string, Record>, assignments: map<string, Assignment>, es: seq<Event>)
    requires Durable(repo)
    ensures
      var now := Run(Boot(repo, assignments), es);
      && |now.process.views.items| <= 512 && |now.process.states.items| <= 512
      && forall id :: id in now.process.views.items ==>
           id in now.repo
           && SameButNarrative(now.process.views.items[id], Render(now.repo[id], Lookup(now.process.assignments, id)))
  {
    hide Step, Run;
    BootHolds(repo, assignments);
    RunKeepsInvariant(Boot(repo, assignments), es);
    var p := Run(Boot(repo, assignments), es).process;
    DistinctCount(p.views.order, p.views.items.Keys);
    DistinctCount(p.states.order, p.states.items.Keys);
  }

  /** What a reader of a view is told: the record's own verdict and price, or that it is escalated and
    * quarantined while it has none; its trace, and the narrative's span behind it; who has custody. */
  ghost predicate Shows(v: View, r: Record, custody: Option<Assignment>) {
    && v.id == r.id && v.unit == r.unit && v.station == r.station && v.custody == custody
    && (match r.qc.fusion
        case Some(a) => v.verdict == a.verdict && v.severity == a.severity && v.confidence == a.confidence
                        && v.fusionOnly == a.fusionOnly && v.primary == a.primary
        case None => v.verdict == Escalate && v.severity == Major && v.confidence == 0.0
                     && !v.fusionOnly && v.primary == NoSignal)
    && (match r.qc.triage
        case Some(t) => v.disposition == t.recommended && v.cost == t.cost && v.low == t.low && v.high == t.high
                        && v.requiresHuman == t.requiresHuman
        case None => v.disposition == Cost.Quarantine && v.cost == v.low == v.high == 0.0 && !v.requiresHuman)
    && |v.spans| == |r.qc.trace| + (if v.narrative.Some? then 1 else 0)
    && forall i :: 0 <= i < |r.qc.trace| ==> v.spans[i] == AgentSpan(r.qc.trace[i])
  }

  /** After any interleaving, what a cached view tells is what is stored. */
  lemma CachedViewShows(repo: map<string, Record>, assignments: map<string, Assignment>, es: seq<Event>, id: string)
    requires Durable(repo) && id in Run(Boot(repo, assignments), es).process.views.items
    ensures
      var now := Run(Boot(repo, assignments), es);
      id in now.repo && Shows(now.process.views.items[id], now.repo[id], Lookup(now.process.assignments, id))
  {
    hide Run, Boot;
    ViewsStayCoherent(repo, assignments, es);
    var now := Run(Boot(repo, assignments), es);
    TellsRecord(now.process.views.items[id], now.repo[id], Lookup(now.process.assignments, id));
  }

  lemma TellsRecord(v: View, r: Record, custody: Option<Assignment>)
    requires SameButNarrative(v, Render(r, custody))
    ensures Shows(v, r, custody)
  {
    var base := Render(r, custody);
    if v.narrative.Some? {
      var summary :| v == base.(narrative := v.narrative, spans := base.spans + [NarrativeSpan(summary)]);
    }
  }

  /** Two defective units finished one after the other go to the two workers, whatever was assigned before. */
  lemma WorkersTakeTurns(p: Shared, first: Record, second: Record, earlier: real, now: real)
    requires first.Defective() && second.Defective() && first.id != second.id
    ensures
      var after := Publish(Publish(p, first, earlier), second, now).assignments;
      && first.id in after && second.id in after
      && {after[first.id].username, after[second.id].username} == {"ravi", "aarav"}
      && after[first.id].at == earlier && after[second.id].at == now
  {
    hide Put, Render;
    assert (p.counter + 1) % 2 == 1 - p.counter % 2;
  }

  /** The view an event hands to its caller, if any. */
  function Answered(s: System, e: Event): Option<View> {
    if e.Resolve? && e.task !in s.tasks then Lookup(s.process.views.items, e.id)
    else if e.Resume? && e.task in s.tasks && s.tasks[e.task].Read? && s.tasks[e.task].found.Some? then
      var r := s.tasks[e.task].found.value;
      Some(Render(r, Lookup(s.process.assignments, r.id)))
    else if e.Finish? && e.task in s.tasks && s.tasks[e.task].Saved? then
      var r := s.tasks[e.task].record;
      Some(Render(r, Lookup(Step(s, e).process.assignments, r.id)))
    else None
  }

  /** Reads see the latest custody: whatever view a caller is handed, at any point of any run, is
    * the stored record with the assignment map as it is at that moment, and it is now cached. */
  lemma AnswersAreCurrent(s: System, e: Event)
    requires Inv(s) && Answered(s, e).Some?
    ensures
      var v, after := Answered(s, e).value, Step(s, e);
      Lookup(after.process.views.items, v.id) == Some(v) && Fresh(after, v.id, v)
  {
    hide Put, Valid, SameButNarrative;
    StepKeepsInvariant(s, e);
    if e.Resolve? {
      CachedUnderItsId(s, e.id);
    } else if e.Resume? {
      FillKeeps(s.process, s.tasks[e.task].found.value);
    } else {
      PublishCaches(s.process, s.tasks[e.task].record, e.now);
    }
  }

  lemma CachedUnderItsId(s: System, id: string)
    requires Inv(s) && id in s.process.views.items
    ensures s.process.views.items[id].id == id
  {
    hide Valid;
    assert Fresh(s, id, s.process.views.items[id]);
  }

  lemma PublishCaches(p: Shared, r: Record, now: real)
    requires Bounded(p)
    ensures var q := Publish(p, r, now);
            r.id in q.views.items && q.views.items[r.id] == Render(r, Lookup(q.assignments, r.id)) && Bounded(q)
  {
    hide Put, Valid, Render, AutoAssignment;
    var q := if r.Defective()
             then p.(assignments := p.assignments[r.id := AutoAssignment(p.counter, now)], counter := p.counter + 1)
             else p;
    FillKeeps(q, r);
  }

  // ------------------------------------------------------------------
  // Reading past the cache
  // ------------------------------------------------------------------

  ghost predicate Spares(es: seq<Event>, task: nat) { forall e :: e in es ==> e.task != task }

  lemma StepSpares(s: System, e: Event, task: nat)
    requires Inv(s) && e.task != task
    ensures Lookup(Step(s, e).tasks, task) == Lookup(s.tasks, task)
  {
    hide Inv, Fill, Assign, Publish, Remember, Narrate, Touch;
  }

  lemma StepKeepsRecords(s: System, e: Event, id: string)
    requires Inv(s) && id in s.repo
    ensures id in Step(s, e).repo && Step(s, e).repo[id] == s.repo[id]
  {
    hide Coherent, Bounded, Fill, Assign, Publish, Remember, Narrate, Touch;
  }

  lemma {:induction false} RunSpares(s: System, es: seq<Event>, task: nat, id: string)
    requires Inv(s) && Spares(es, task) && id in s.repo
    ensures Lookup(Run(s, es).tasks, task) == Lookup(s.tasks, task)
    ensures id in Run(s, es).repo && Run(s, es).repo[id] == s.repo[id]
    decreases |es|
  {
    if es == [] {
    } else {
      hide Inv, Step;
      StepKeepsInvariant(s, es[0]);
      StepSpares(s, es[0], task);
      StepKeepsRecords(s, es[0], id);
      RunSpares(Step(s, es[0]), es[1..], task, id);
    }
  }

  /** No stored record is ever missed: whatever the other handlers do while the caller waits for
    * the repository and then for its turn, it gets the stored record with the current custody. */
  lemma MissIsASlowHit(s: System, task: nat, id: string, during: seq<Event>, after: seq<Event>)
    requires Inv(s) && task !in s.tasks && id in s.repo && id !in s.process.views.items
    requires Spares(during, task) && Spares(after, task)
    ensures
      var asked := Run(Step(s, Resolve(task, id)), during);
      var now := Run(Step(asked, RepositoryAnswers(task)), after);
      Answered(now, Resume(task)) == Some(Render(s.repo[id], Lookup(now.process.assignments, id)))
  {
    hide Inv, Run;
    var waiting := Step(s, Resolve(task, id));
    StepKeepsInvariant(s, Resolve(task, id));
    RunKeepsInvariant(waiting, during);
    RunSpares(waiting, during, task, id);
    var asked := Run(waiting, during);
    var told := Step(asked, RepositoryAnswers(task));
    StepKeepsInvariant(asked, RepositoryAnswers(task));
    RunKeepsInvariant(told, after);
    RunSpares(told, after, task, id);
    FiledUnderItsId(s, id);
  }

  lemma FiledUnderItsId(s: System, id: string)
    requires Inv(s) && id in s.repo
    ensures s.repo[id].id == id
  {
    hide Coherent, Bounded;
  }

  // ------------------------------------------------------------------
  // What can change a record's custody or its cached view
  // ------------------------------------------------------------------

  /** The waiting handler `t` may still act on the record `id`. */
  predicate Concerns(t: Task, id: string) {
    match t
    case Saving(r) => r.id == id
    case Saved(r) => r.id == id
    case Narrating(r) => r.id == id
    case Reading(i) => i == id
    case Read(found) => found.Some? && found.value.id == id
    case AssignReading(i, _) => i == id
    case AssignRead(found, _) => found.Some? && found.value.id == id
  }

  ghost predicate Settled(s: System, id: string) {
    id in s.repo && forall t :: t in s.tasks ==> !Concerns(s.tasks[t], id)
  }

  ghost predicate NeverAsked(es: seq<Event>, id: string) {
    forall e :: e in es ==> !(e.Ask? && e.id == id)
  }

  /** How many entries were used after `id`. */
  function Depth(order: seq<string>, id: string): nat {
    if order == [] || order[|order| - 1] == id then 0 else 1 + Depth(order[..|order| - 1], id)
  }

  lemma {:induction false} DepthWithout(order: seq<string>, other: string, id: string)
    requires other != id
    ensures Depth(Without(order, other), id) <= Depth(order, id)
  {
    if order == [] {
    } else {
      var k := |order| - 1;
      DepthWithout(order[..k], other, id);
      var rest := Without(order[..k], other);
      assert (rest + [order[k]])[..|rest|] == rest;
      assert order[k] == other ==> rest + [] == rest;
    }
  }

  lemma {:induction false} DepthTail(order: seq<string>, id: string)
    requires id in order && Depth(order, id) < |order| - 1
    ensures id in order[1..] && Depth(order[1..], id) == Depth(order, id)
  {
    var k := |order| - 1;
    assert order[1..][..k - 1] == order[..k][1..];
    assert order[1..][k - 1] == order[k];
    if order[k] == id {
    } else {
      assert order == order[..k] + [order[k]];
      DepthTail(order[..k], id);
    }
  }

  lemma DepthSnoc(order: seq<string>, other: string, id: string)
    ensures Depth(order + [other], id) <= Depth(order, id) + 1
  {
    assert (order + [other])[..|order|] == order;
  }

  lemma StorePushes<V>(l: Lru<V>, other: string, v: V, id: string)
    requires Valid(l) && id in l.items && other != id
    ensures var after := Store(l, other, v);
            && Valid(after) && |after.order| <= |l.order| + 1
            && id in after.items && after.items[id] == l.items[id] && Depth(after.order, id) <= Depth(l.order, id) + 1
  {
    hide Depth;
    StoreKeeps(l, other, v);
    DepthWithout(l.order, other, id);
    DepthSnoc(Without(l.order, other), other, id);
  }

  lemma TrimSpares<V>(l: Lru<V>, bound: nat, id: string)
    requires Valid(l) && |l.order| <= bound + 1 && id in l.items && Depth(l.order, id) < bound
    ensures var after := Trim(l, bound);
            id in after.items && after.items[id] == l.items[id] && Depth(after.order, id) == Depth(l.order, id)
  {
    TrimOne(l, bound);
    if |l.order| > bound {
      DepthTail(l.order, id);
      assert id in Trim(l, bound).order;
    }
  }

  /** Using another entry pushes `id` at most one place down, and evicts it only off the end. */
  lemma PutPushes<V>(l: Lru<V>, other: string, v: V, bound: nat, id: string)
    requires Valid(l) && |l.order| <= bound && id in l.items && other != id && Depth(l.order, id) + 1 < bound
    ensures var after := Put(l, other, v, bound);
            id in after.items && after.items[id] == l.items[id] && Depth(after.order, id) <= Depth(l.order, id) + 1
  {
    hide Valid, Store, Trim, Depth;
    StorePushes(l, other, v, id);
    TrimSpares(Store(l, other, v), bound, id);
  }

  lemma TouchPushes<V>(l: Lru<V>, other: string, id: string)
    requires Valid(l) && id in l.items
    ensures Touch(l, other).items == l.items && Depth(Touch(l, other).order, id) <= Depth(l.order, id) + 1
  {
    hide Valid;
    DepthSnoc(Without(l.order, other), other, id);
    if other != id { DepthWithout(l.order, other, id); }
  }

  lemma DropPushes<V>(l: Lru<V>, other: string, id: string)
    requires Valid(l) && id in l.items && other != id
    ensures var after := Drop(l, other);
            id in after.items && after.items[id] == l.items[id] && Depth(after.order, id) <= Depth(l.order, id)
  {
    DepthWithout(l.order, other, id);
  }

  /** The event puts some view at the recent end of the cache. */
  predicate Uses(s: System, e: Event) { Answered(s, e).Some? }

  function UseCount(s: System, es: seq<Event>): nat
    decreases |es|
  {
    if es == [] then 0 else (if Uses(s, es[0]) then 1 else 0) + UseCount(Step(s, es[0]), es[1..])
  }

  function CachedDepth(s: System, id: string): nat { Depth(s.process.views.order, id) }

  // ------------------------------------------------------------------
  // Custody over whole runs
  // ------------------------------------------------------------------

  /** No handler that was asked to assign the record is still waiting. */
  ghost predicate NobodyAssigning(s: System, id: string) {
    forall t :: t in s.tasks ==>
      match s.tasks[t]
      case AssignReading(i, _) => i != id
      case AssignRead(found, _) => found.Some? ==> found.value.id != id
      case _ => true
  }

  /** A defective unit's record is being made but not yet published. */
  predicate AwaitsAutoAssignment(t: Task, id: string) {
    (t.Saving? || t.Saved?) && t.record.id == id && t.record.Defective()
  }

  ghost predicate NoneAwaited(s: System, id: string) {
    forall t :: t in s.tasks ==> !AwaitsAutoAssignment(s.tasks[t], id)
  }

  ghost predicate Quiet(s: System, id: string) {
    id in s.issued && NobodyAssigning(s, id) && NoneAwaited(s, id)
  }

  lemma QuietCustody(s: System, e: Event, id: string)
    requires Inv(s) && Quiet(s, id) && !(e.Ask? && e.id == id)
    ensures Lookup(Step(s, e).process.assignments, id) == Lookup(s.process.assignments, id)
  {
    hide Coherent, Bounded, Put, Touch, Drop, Render, AutoAssignment, Record.Defective;
  }

  lemma QuietStays(s: System, e: Event, id: string)
    requires Inv(s) && Quiet(s, id) && !(e.Ask? && e.id == id)
    ensures Quiet(Step(s, e), id)
  {
    hide Coherent, Bounded, Fill, Assign, Publish, Remember, Narrate, Touch, Record.Defective;
  }

  ghost predicate CustodyKept(s: System, es: seq<Event>, id: string) {
    Lookup(Run(s, es).process.assignments, id) == Lookup(s.process.assignments, id)
  }

  lemma {:induction false} QuietRun(s: System, es: seq<Event>, id: string)
    requires Inv(s) && Quiet(s, id) && NeverAsked(es, id)
    ensures CustodyKept(s, es, id)
    decreases |es|
  {
    if es == [] {
    } else {
      hide Inv, Step, Quiet;
      QuietCustody(s, es[0], id);
      QuietStays(s, es[0], id);
      StepKeepsInvariant(s, es[0]);
      QuietRun(Step(s, es[0]), es[1..], id);
    }
  }

  /** From a saved defective record, publishing replaces whatever custody there is. */
  lemma PublishOverwrites(s: System, t: nat, r: Record, now: real)
    requires Lookup(s.tasks, t) == Some(Saved(r)) && r.Defective()
    requires r.id in s.process.assignments ==> now != s.process.assignments[r.id].at
    ensures !CustodyKept(s, [Finish(t, now)], r.id)
  {
    hide Put, Render, Record.Defective;
    RunOf(s, Finish(t, now), []);
    assert [Finish(t, now)] + [] == [Finish(t, now)];
  }

  lemma AwaitedOverwrites(s: System, t: nat, id: string) returns (es: seq<Event>)
    requires t in s.tasks && AwaitsAutoAssignment(s.tasks[t], id)
    ensures NeverAsked(es, id) && !CustodyKept(s, es, id)
  {
    var r := s.tasks[t].record;
    var now := if id in s.process.assignments then s.process.assignments[id].at + 1.0 else 0.0;
    if s.tasks[t].Saved? {
      es := [Finish(t, now)];
      PublishOverwrites(s, t, r, now);
    } else {
      es := [SaveCommits(t)] + [Finish(t, now)];
      RunOf(s, SaveCommits(t), [Finish(t, now)]);
      PublishOverwrites(Step(s, SaveCommits(t)), t, r, now);
    }
  }

  /** Custody changes only when it is asked for, exactly when no defective unit's record is still
    * being made: with no assignment under way, every run without a request for the record keeps
    * its custody if and only if no handler is about to auto-assign it. Readers, narrators and
    * passing units do not matter. */
  lemma CustodyKeptIff(s: System, id: string)
    requires Inv(s) && id in s.issued && NobodyAssigning(s, id)
    ensures NoneAwaited(s, id) <==> forall es :: NeverAsked(es, id) ==> CustodyKept(s, es, id)
  {
    hide Inv, CustodyKept, NeverAsked;
    if NoneAwaited(s, id) {
      forall es | NeverAsked(es, id) ensures CustodyKept(s, es, id) { QuietRun(s, es, id); }
    } else {
      var t :| t in s.tasks && AwaitsAutoAssignment(s.tasks[t], id);
      var es := AwaitedOverwrites(s, t, id);
    }
  }

  lemma SettledIsQuiet(s: System, id: string)
    requires Inv(s) && Settled(s, id)
    ensures Quiet(s, id)
  {
    hide Coherent, Bounded, Record.Defective;
  }

  // ------------------------------------------------------------------
  // A cached view over whole runs
  // ------------------------------------------------------------------

  lemma OthersStaySettled(s: System, e: Event, id: string)
    requires Inv(s) && Settled(s, id) && id in s.process.views.items && !(e.Ask? && e.id == id)
    ensures Settled(Step(s, e), id)
  {
    hide Coherent, Bounded, Fill, Assign, Publish, Remember, Narrate, Touch;
  }

  lemma PublishPushes(p: Shared, r: Record, now: real, id: string)
    requires Bounded(p) && id in p.views.items && r.id != id && Depth(p.views.order, id) + 1 < VIEW_CACHE_MAX
    ensures var q := Publish(p, r, now).views;
            id in q.items && q.items[id] == p.views.items[id] && Depth(q.order, id) <= Depth(p.views.order, id) + 1
  {
    hide Valid, Put, Depth, Render, AutoAssignment;
    var custody := if r.Defective() then p.assignments[r.id := AutoAssignment(p.counter, now)] else p.assignments;
    PutPushes(p.views, r.id, Render(r, Lookup(custody, r.id)), VIEW_CACHE_MAX, id);
  }

  lemma OthersLeaveView(s: System, e: Event, id: string)
    requires Inv(s) && Settled(s, id) && id in s.process.views.items && !(e.Ask? && e.id == id)
    requires CachedDepth(s, id) + (if Uses(s, e) then 1 else 0) < VIEW_CACHE_MAX
    ensures
      var after := Step(s, e);
      && id in after.process.views.items && after.process.views.items[id] == s.process.views.items[id]
      && CachedDepth(after, id) <= CachedDepth(s, id) + (if Uses(s, e) then 1 else 0)
  {
    hide Coherent, Valid, Put, Touch, Drop, Depth, Render, Publish, OneCreator, TaskOk;
    var views := s.process.views;
    match e {
      case Resolve(_, other) => TouchPushes(views, other, id);
      case Ask(_, other, _) =>
        if other in s.process.states.items { DropPushes(views, other, id); }
      case Finish(task, now) =>
        if task in s.tasks && s.tasks[task].Saved? {
          PublishPushes(s.process, s.tasks[task].record, now, id);
        }
      case Resume(task) =>
        if task in s.tasks {
          match s.tasks[task] {
            case Read(Some(r)) =>
              PutPushes(views, r.id, Render(r, Lookup(s.process.assignments, r.id)), VIEW_CACHE_MAX, id);
            case AssignRead(Some(r), _) => DropPushes(views, r.id, id);
            case _ =>
          }
        }
      case _ =>
    }
  }

  /** Least recently used: once no handler is at work on a record, its cached view, narrative
    * included, outlives any run that does not reassign it and uses fewer than 512 views. */
  lemma {:induction false} ViewSurvives(s: System, es: seq<Event>, id: string)
    requires Inv(s) && Settled(s, id) && id in s.process.views.items && NeverAsked(es, id)
    requires CachedDepth(s, id) + UseCount(s, es) < 512
    ensures var after := Run(s, es).process;
            id in after.views.items && after.views.items[id] == s.process.views.items[id]
            && Lookup(after.assignments, id) == Lookup(s.process.assignments, id)
    decreases |es|
  {
    if es == [] {
    } else {
      hide Inv, Step, Settled, Uses, CachedDepth;
      OthersLeaveView(s, es[0], id);
      SettledIsQuiet(s, id);
      QuietCustody(s, es[0], id);
      OthersStaySettled(s, es[0], id);
      StepKeepsInvariant(s, es[0]);
      ViewSurvives(Step(s, es[0]), es[1..], id);
    }
  }

  ghost predicate ViewKept(s: System, es: seq<Event>, id: string)
    requires id in s.process.views.items
  {
    var after := Run(s, es).process.views.items;
    id in after && after[id] == s.process.views.items[id]
  }

  /** The run asks for no assignment of the record and uses too few views to evict it. */
  ghost predicate Undemanding(s: System, es: seq<Event>, id: string) {
    NeverAsked(es, id) && CachedDepth(s, id) + UseCount(s, es) < 512
  }

  /** Resuming a reader or an assigner that already has the record takes the narrative away. */
  lemma ResumeTakesNarrative(s: System, t: nat, id: string)
    requires Inv(s) && id in s.process.views.items && s.process.views.items[id].narrative.Some?
    requires t in s.tasks && (s.tasks[t].Read? || s.tasks[t].AssignRead?) && Concerns(s.tasks[t], id)
    ensures var after := Step(s, Resume(t)).process.views.items;
            id in after ==> after[id].narrative.None?
  {
    if s.tasks[t].Read? {
      ResumeUntells(s, t, s.tasks[t].found.value);
    } else {
      hide Inv, Without, Render;
    }
  }

  lemma RunOne(s: System, e: Event)
    ensures Run(s, [e]) == Step(s, e) && UseCount(s, [e]) == if Uses(s, e) then 1 else 0
  {
    hide Step, Uses;
    assert [e][1..] == [];
  }

  lemma RunPair(s: System, e: Event, f: Event)
    ensures Run(s, [e, f]) == Step(Step(s, e), f)
    ensures UseCount(s, [e, f]) == (if Uses(s, e) then 1 else 0) + (if Uses(Step(s, e), f) then 1 else 0)
  {
    hide Step, Uses;
    assert [e, f][1..] == [f];
    RunOne(Step(s, e), f);
  }

  /** While a narrative is on the view its maker is done, so only readers and assigners are left. */
  lemma ToldConcerns(s: System, t: nat, id: string)
    requires Inv(s) && id in s.process.views.items && s.process.views.items[id].narrative.Some?
    requires t in s.tasks && Concerns(s.tasks[t], id)
    ensures s.tasks[t].Reading? || s.tasks[t].AssignReading? || s.tasks[t].Read? || s.tasks[t].AssignRead?
    ensures id in s.repo && s.repo[id].id == id
  {
    hide Bounded, SameButNarrative;
    assert Fresh(s, id, s.process.views.items[id]) && TaskOk(s, s.tasks[t]);
  }

  lemma AnswerConcerns(s: System, t: nat, id: string)
    requires id in s.repo && s.repo[id].id == id
    requires t in s.tasks && (s.tasks[t].Reading? || s.tasks[t].AssignReading?) && Concerns(s.tasks[t], id)
    ensures
      var told := Step(s, RepositoryAnswers(t));
      && told.process == s.process && t in told.tasks && Concerns(told.tasks[t], id)
      && (told.tasks[t].Read? || told.tasks[t].AssignRead?) && !Uses(s, RepositoryAnswers(t))
  {
  }

  /** Any handler at work on a told record can take its narrative away. */
  lemma ConcernLosesNarrative(s: System, t: nat, id: string) returns (es: seq<Event>)
    requires Inv(s) && id in s.process.views.items && s.process.views.items[id].narrative.Some?
    requires t in s.tasks && Concerns(s.tasks[t], id) && CachedDepth(s, id) + 1 < 512
    ensures Undemanding(s, es, id) && !ViewKept(s, es, id)
  {
    hide Inv, Step, Uses, CachedDepth, Concerns;
    ToldConcerns(s, t, id);
    if s.tasks[t].Read? || s.tasks[t].AssignRead? {
      es := [Resume(t)];
      RunOne(s, Resume(t));
      ResumeTakesNarrative(s, t, id);
    } else {
      es := [RepositoryAnswers(t), Resume(t)];
      RunPair(s, RepositoryAnswers(t), Resume(t));
      AnswerConcerns(s, t, id);
      StepKeepsInvariant(s, RepositoryAnswers(t));
      ResumeTakesNarrative(Step(s, RepositoryAnswers(t)), t, id);
    }
  }

  /** Exactly when a narrative is safe: with room in the cache, every run that neither asks for the
    * record nor uses 512 views keeps the told view if and only if no handler is at work on it. */
  lemma NarrativeKeptIff(s: System, id: string)
    requires Inv(s) && id in s.process.views.items && s.process.views.items[id].narrative.Some?
    requires CachedDepth(s, id) + 1 < 512
    ensures Settled(s, id) <==> forall es :: Undemanding(s, es, id) ==> ViewKept(s, es, id)
  {
    hide Concerns, CachedDepth, UseCount;
    CachedIsStored(s, id);
    hide Inv;
    if Settled(s, id) {
      forall es | Undemanding(s, es, id) ensures ViewKept(s, es, id) { ViewSurvives(s, es, id); }
    } else {
      var t :| t in s.tasks && Concerns(s.tasks[t], id);
      var es := ConcernLosesNarrative(s, t, id);
    }
  }

  lemma CachedIsStored(s: System, id: string)
    requires Inv(s) && id in s.process.views.items
    ensures id in s.repo
  {
    assert Fresh(s, id, s.process.views.items[id]);
  }

  // ------------------------------------------------------------------
  // Two interleavings that lose something
  // ------------------------------------------------------------------

  lemma NewIdIsNowhere(s: System, id: string)
    requires Inv(s) && id !in s.issued
    ensures id !in s.repo && id !in s.process.views.items && id !in s.process.states.items
  {
    hide Bounded, SameButNarrative;
    assert id in s.process.views.items ==> Fresh(s, id, s.process.views.items[id]);
  }

  lemma RunOf(s: System, e: Event, es: seq<Event>)
    ensures Run(s, [e] + es) == Run(Step(s, e), es)
  {
    assert ([e] + es)[1..] == es;
  }

  lemma Remembered(s: System, t: nat, r: Record)
    requires Inv(s) && t !in s.tasks && r.id !in s.issued
    ensures var waiting := Step(s, Create(t, r));
            && waiting.tasks == s.tasks[t := Saving(r)] && Lookup(waiting.process.states.items, r.id) == Some(r)
            && waiting.process == s.process.(states := waiting.process.states)
  {
    hide Valid, Put;
    PutKeeps(s.process.states, r.id, r, STATE_CACHE_MAX);
  }

  /** Custody asked for while a defective unit's save is still pending is accepted, then silently
    * replaced by the automatic assignment. */
  lemma EarlyCustodyIsOverwritten(s: System, t: nat, u: nat, r: Record, a: Assignment, now: real)
    requires Inv(s) && t != u && t !in s.tasks && u !in s.tasks && r.id !in s.issued && r.Defective()
    ensures
      var asked := Run(s, [Create(t, r)] + [Ask(u, r.id, a)]);
      var published := Run(asked, [SaveCommits(t)] + [Finish(t, now)]);
      && Lookup(asked.process.assignments, r.id) == Some(a)
      && Lookup(published.process.assignments, r.id) == Some(AutoAssignment(s.process.counter, now))
  {
    hide Inv, Put, Drop, Render, AutoAssignment, Record.Defective, Run;
    Remembered(s, t, r);
    var asked := Step(Step(s, Create(t, r)), Ask(u, r.id, a));
    RunTwo(s, Create(t, r), Ask(u, r.id, a));
    RunTwo(asked, SaveCommits(t), Finish(t, now));
  }

  lemma RunTwo(s: System, e: Event, f: Event)
    ensures Run(s, [e] + [f]) == Step(Step(s, e), f)
  {
    hide Step;
    RunOf(s, e, [f]);
    RunOf(Step(s, e), f, []);
    assert [f] + [] == [f];
  }

  lemma CreatedAndSaved(s: System, t: nat, u: nat, r: Record)
    requires Inv(s) && t != u && t !in s.tasks && u !in s.tasks && r.id !in s.issued
    ensures
      var saved := Step(Step(s, Create(t, r)), SaveCommits(t));
      && Lookup(saved.tasks, t) == Some(Saved(r)) && u !in saved.tasks
      && Lookup(saved.repo, r.id) == Some(r) && r.id !in saved.process.views.items
  {
    NewIdIsNowhere(s, r.id);
    Remembered(s, t, r);
    hide Inv, Remember;
  }

  lemma MissReads(s: System, t: nat, u: nat, r: Record)
    requires t != u && u !in s.tasks && Lookup(s.repo, r.id) == Some(r) && r.id !in s.process.views.items
    ensures
      var missed := Step(Step(s, Resolve(u, r.id)), RepositoryAnswers(u));
      Lookup(missed.tasks, t) == Lookup(s.tasks, t) && Lookup(missed.tasks, u) == Some(Read(Some(r)))
  {
  }

  /** A new record, saved, then missed by a reader before its maker has cached it. */
  lemma SavedThenMissed(s: System, t: nat, u: nat, r: Record)
    requires Inv(s) && t != u && t !in s.tasks && u !in s.tasks && r.id !in s.issued
    ensures
      var saved := Step(Step(s, Create(t, r)), SaveCommits(t));
      var missed := Step(Step(saved, Resolve(u, r.id)), RepositoryAnswers(u));
      Inv(missed) && Lookup(missed.tasks, t) == Some(Saved(r)) && Lookup(missed.tasks, u) == Some(Read(Some(r)))
  {
    hide Inv, Step;
    KeptBy(s, Create(t, r), SaveCommits(t));
    CreatedAndSaved(s, t, u, r);
    var saved := Step(Step(s, Create(t, r)), SaveCommits(t));
    KeptBy(saved, Resolve(u, r.id), RepositoryAnswers(u));
    MissReads(saved, t, u, r);
  }

  lemma FinishCaches(s: System, t: nat, u: nat, r: Record, now: real)
    requires Bounded(s.process) && t != u && Lookup(s.tasks, t) == Some(Saved(r))
    ensures var published := Step(s, Finish(t, now));
            && Lookup(published.tasks, t) == Some(Narrating(r)) && Lookup(published.tasks, u) == Lookup(s.tasks, u)
            && r.id in published.process.views.items
  {
    PublishCaches(s.process, r, now);
    hide Publish, Render, Bounded;
  }

  lemma NarratedTells(s: System, t: nat, u: nat, r: Record, n: Narrative, summary: string)
    requires t != u && Lookup(s.tasks, t) == Some(Narrating(r)) && r.id in s.process.views.items
    ensures var told := Step(s, Narrated(t, n, summary));
            && Lookup(told.tasks, u) == Lookup(s.tasks, u)
            && r.id in told.process.views.items && told.process.views.items[r.id].narrative == Some(n)
  {
  }

  lemma PublishedThenTold(s: System, t: nat, u: nat, r: Record, now: real, n: Narrative, summary: string)
    requires Inv(s) && t != u
    requires Lookup(s.tasks, t) == Some(Saved(r)) && Lookup(s.tasks, u) == Some(Read(Some(r)))
    ensures
      var told := Step(Step(s, Finish(t, now)), Narrated(t, n, summary));
      && Inv(told) && Lookup(told.tasks, u) == Some(Read(Some(r)))
      && r.id in told.process.views.items && told.process.views.items[r.id].narrative == Some(n)
  {
    hide Inv, Step, Bounded;
    KeptBy(s, Finish(t, now), Narrated(t, n, summary));
    FinishCaches(s, t, u, r, now);
    NarratedTells(Step(s, Finish(t, now)), t, u, r, n, summary);
  }

  lemma ResumeUntells(s: System, u: nat, r: Record)
    requires Inv(s) && Lookup(s.tasks, u) == Some(Read(Some(r)))
    ensures var late := Step(s, Resume(u)).process.views.items;
            r.id in late && late[r.id].narrative == None
  {
    hide Put, Render, Valid;
    FillKeeps(s.process, r);
    RenderUntold(r, Lookup(s.process.assignments, r.id));
  }

  /** A read that missed before the record was first cached and resumes after the narrator has
    * answered puts an untold view back: the narrative is gone although nothing was evicted. */
  lemma LateReadLosesNarrative(s: System, t: nat, u: nat, r: Record, now: real, n: Narrative, summary: string)
    requires Inv(s) && t != u && t !in s.tasks && u !in s.tasks && r.id !in s.issued
    ensures
      var missed := Run(Run(s, [Create(t, r)] + [SaveCommits(t)]), [Resolve(u, r.id)] + [RepositoryAnswers(u)]);
      var told := Run(missed, [Finish(t, now)] + [Narrated(t, n, summary)]);
      && r.id in told.process.views.items && told.process.views.items[r.id].narrative == Some(n)
      && var late := Step(told, Resume(u)).process.views.items;
         r.id in late && late[r.id].narrative == None
  {
    hide Inv, Step, Run;
    RunTwo(s, Create(t, r), SaveCommits(t));
    var saved := Step(Step(s, Create(t, r)), SaveCommits(t));
    RunTwo(saved, Resolve(u, r.id), RepositoryAnswers(u));
    SavedThenMissed(s, t, u, r);
    var missed := Step(Step(saved, Resolve(u, r.id)), RepositoryAnswers(u));
    RunTwo(missed, Finish(t, now), Narrated(t, n, summary));
    PublishedThenTold(missed, t, u, r, now, n, summary);
    ResumeUntells(Step(Step(missed, Finish(t, now)), Narrated(t, n, summary)), u, r);
  }

  lemma KeptBy(s: System, e: Event, f: Event)
    requires Inv(s)
    ensures Bounded(s.process) && Inv(Step(Step(s, e), f)) && Bounded(Step(Step(s, e), f).process)
  {
    hide Step, Coherent, Filed, OneCreator, TaskOk, Bounded;
    StepKeepsInvariant(s, e);
    StepKeepsInvariant(Step(s, e), f);
  }
}
