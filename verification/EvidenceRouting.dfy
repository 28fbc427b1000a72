/** The run-global evidence store and the router that maps tasks to acquisitions or references. */
module EvidenceRouting {
  import opened Wrappers
  import Scopes = AcquisitionScopes

  type Id = string

  datatype Category = CompanyProfile | FinancialStatement | Market | Peer | News | Analyst | Transcript | OtherCategory

  const ALL_CATEGORIES: set<Category> :=
    {CompanyProfile, FinancialStatement, Market, Peer, News, Analyst, Transcript, OtherCategory}

  datatype Record = Record(
    id: Id,
    runId: string,
    producer: string,
    category: Category,
    purpose: string,
    accepted: bool,
    body: string)

  /** One ingestion for a task. */
  datatype Acquisition = Acquisition(taskId: string, records: seq<Record>, created: seq<Record>, accepted: seq<Record>)

  datatype Error = WrongRun | WrongProducer | Collision | UnknownEvidence | CollectorFailed

  datatype Routing = Routing(inputs: seq<Id>, outputs: seq<Id>, intents: seq<Id>)

  // ---- Lists without repetition ---------------------------------------------------------

  ghost predicate Distinct(s: seq<Id>) {
    forall i, j :: 0 <= i < j < |s| ==> s[i] != s[j]
  }

  function AppendUnique(items: seq<Id>, value: Id): (r: seq<Id>)
    ensures Distinct(items) ==> Distinct(r)
    ensures forall x :: x in r <==> x in items || x == value
    ensures items <= r
  {
    if value in items then items else items + [value]
  }

  /** The ids of the records that pass a test, each at its first occurrence. */
  function IdsOf(rs: seq<Record>, test: Record -> bool): (ids: seq<Id>)
    ensures Distinct(ids)
    ensures forall id :: id in ids <==> exists r :: r in rs && test(r) && r.id == id
  {
    if rs == [] then []
    else
      assert rs == rs[..|rs| - 1] + [rs[|rs| - 1]];
      var rest := IdsOf(rs[..|rs| - 1], test);
      if test(rs[|rs| - 1]) then AppendUnique(rest, rs[|rs| - 1].id) else rest
  }

  lemma IdsOfNothing(rs: seq<Record>, test: Record -> bool)
    ensures IdsOf(rs[..0], test) == []
  {
  }

  lemma IdsOfOneMore(rs: seq<Record>, i: nat, test: Record -> bool)
    requires i < |rs|
    ensures IdsOf(rs[..i + 1], test)
            == if test(rs[i]) then AppendUnique(IdsOf(rs[..i], test), rs[i].id) else IdsOf(rs[..i], test)
  {
    assert rs[..i + 1][..i] == rs[..i];
  }

  function ProducedBy(taskId: string): Record -> bool {
    (r: Record) => r.producer == taskId
  }

  function ProducedElsewhere(taskId: string): Record -> bool {
    (r: Record) => r.producer != taskId
  }

  /** Accepted for the first time by the acquisition that created it. */
  function FirstAccepted(created: set<Id>, announced: set<Id>): Record -> bool {
    (r: Record) => r.id in created && r.id !in announced
  }

  /** What the next accepted record adds to the outputs, the inputs and the announcements. */
  lemma OneMoreAccepted(a: Acquisition, i: nat, created: set<Id>, announced: set<Id>)
    requires i < |a.accepted|
    ensures var (rs, r) := (a.accepted, a.accepted[i]);
            && IdsOf(rs[..i + 1], ProducedBy(a.taskId)) ==
               (var ids := IdsOf(rs[..i], ProducedBy(a.taskId));
                if r.producer == a.taskId then AppendUnique(ids, r.id) else ids)
            && IdsOf(rs[..i + 1], ProducedElsewhere(a.taskId)) ==
               (var ids := IdsOf(rs[..i], ProducedElsewhere(a.taskId));
                if r.producer != a.taskId then AppendUnique(ids, r.id) else ids)
            && IdsOf(rs[..i + 1], FirstAccepted(created, announced)) ==
               (var ids := IdsOf(rs[..i], FirstAccepted(created, announced));
                if r.id in created && r.id !in announced then AppendUnique(ids, r.id) else ids)
  {
    hide IdsOf;
    IdsOfOneMore(a.accepted, i, ProducedBy(a.taskId));
    IdsOfOneMore(a.accepted, i, ProducedElsewhere(a.taskId));
    IdsOfOneMore(a.accepted, i, FirstAccepted(created, announced));
  }

  function CreatedIds(a: Acquisition): set<Id> {
    set r | r in a.created :: r.id
  }

  /** New records name the acquiring task as their producer. */
  predicate Attributed(a: Acquisition) {
    forall x :: x in a.created ==> x.producer == a.taskId
  }

  predicate Belongs(runId: string, taskId: string) {
    runId + ":" <= taskId
  }

  /** The tasks of a run are the run id with some key. */
  lemma BelongsMeans(runId: string, taskId: string)
    ensures Belongs(runId, taskId) <==> exists key :: taskId == runId + ":" + key
  {
    if Belongs(runId, taskId) {
      assert taskId == runId + ":" + taskId[|runId| + 1..];
    }
  }

  function ListOf(m: map<string, seq<Id>>, task: string): seq<Id> {
    if task in m then m[task] else []
  }

  /** The ids stand in the list, each at a later place than those before it. */
  ghost predicate InOrderOf(list: seq<Id>, ids: seq<Id>) {
    exists places: seq<int> :: |places| == |ids| && PlacedAt(list, ids, places)
  }

  ghost predicate PlacedAt(list: seq<Id>, ids: seq<Id>, places: seq<int>)
    requires |places| == |ids|
  {
    && (forall i :: 0 <= i < |ids| ==> 0 <= places[i] < |list| && list[places[i]] == ids[i])
    && (forall i, j :: 0 <= i < j < |ids| ==> places[i] < places[j])
  }

  lemma OrderOfNothing(list: seq<Id>)
    ensures InOrderOf(list[..0], [])
  {
    assert PlacedAt(list[..0], [], []);
  }

  lemma OrderGrows(list: seq<Id>, i: nat, ids: seq<Id>)
    requires i < |list| && InOrderOf(list[..i], ids)
    ensures InOrderOf(list[..i + 1], ids) && InOrderOf(list[..i + 1], ids + [list[i]])
  {
    var places: seq<int> :| |places| == |ids| && PlacedAt(list[..i], ids, places);
    assert PlacedAt(list[..i + 1], ids, places);
    assert PlacedAt(list[..i + 1], ids + [list[i]], places + [i]);
  }

  // ---- How far a refused call gets ------------------------------------------------------

  /** A list after the given ids were appended in order, each at most once. */
  function Linked(list: seq<Id>, ids: seq<Id>): (r: seq<Id>)
    ensures list <= r && (Distinct(list) ==> Distinct(r))
    ensures forall x :: x in r <==> x in list || x in ids
  {
    if ids == [] then list
    else
      assert ids == ids[..|ids| - 1] + [ids[|ids| - 1]];
      AppendUnique(Linked(list, ids[..|ids| - 1]), ids[|ids| - 1])
  }

  /** Linking adds nothing exactly when everything is listed already. */
  lemma {:induction false} LinkingAddsNothing(list: seq<Id>, ids: seq<Id>)
    ensures Linked(list, ids) == list <==> forall id :: id in ids ==> id in list
  {
    if ids != [] && forall id :: id in ids ==> id in list {
      assert forall id :: id in ids[..|ids| - 1] ==> id in ids;
      LinkingAddsNothing(list, ids[..|ids| - 1]);
    }
  }

  /** Position of the first id without a record, or the number of ids. */
  function FirstUnknown(records: map<Id, Record>, ids: seq<Id>): (i: nat)
    ensures i <= |ids| && forall j :: 0 <= j < i ==> ids[j] in records
    ensures i < |ids| ==> ids[i] !in records
  {
    if ids == [] || ids[0] !in records then 0
    else
      assert forall j :: 0 < j < |ids| ==> ids[j] == ids[1..][j - 1];
      1 + FirstUnknown(records, ids[1..])
  }

  /** The records belong to the run and contradict neither the known ones nor each other. */
  ghost predicate Coherent(runId: string, known: map<Id, Record>, rs: seq<Record>) {
    && (forall r :: r in rs ==> r.runId == runId && (r.id in known ==> known[r.id] == r))
    && (forall a, b :: a in rs && b in rs && a.id == b.id ==> a == b)
  }

  /** Position of the first record that does not fit with the known ones and those before it, or the
      number of records. */
  ghost function FirstRefused(runId: string, known: map<Id, Record>, rs: seq<Record>): (i: nat)
    ensures i <= |rs| && Coherent(runId, known, rs[..i])
    ensures i < |rs| ==> !Coherent(runId, known, rs[..i + 1])
    decreases |rs|
  {
    if Coherent(runId, known, rs) then
      assert rs[..|rs|] == rs;
      |rs|
    else
      var init := rs[..|rs| - 1];
      var i := FirstRefused(runId, known, init);
      assert init[..i] == rs[..i];
      assert i < |init| ==> init[..i + 1] == rs[..i + 1];
      assert rs[..|rs|] == rs;
      i
  }

  lemma {:induction false} CoherentUpTo(runId: string, known: map<Id, Record>, rs: seq<Record>, i: nat, j: nat)
    requires i <= j <= |rs| && Coherent(runId, known, rs[..j])
    ensures Coherent(runId, known, rs[..i])
  {
    assert forall r :: r in rs[..i] ==> r in rs[..j];
  }

  /** The first refusal is where the records fit so far and no longer with the next one. */
  lemma FirstRefusedIs(runId: string, known: map<Id, Record>, rs: seq<Record>, i: nat)
    requires i <= |rs| && Coherent(runId, known, rs[..i]) && (i < |rs| ==> !Coherent(runId, known, rs[..i + 1]))
    ensures FirstRefused(runId, known, rs) == i
  {
    hide Coherent;
    var k := FirstRefused(runId, known, rs);
    if k < i {
      CoherentUpTo(runId, known, rs, k + 1, i);
    } else if i < k {
      CoherentUpTo(runId, known, rs, i + 1, k);
    }
  }

  /** The known records after others were registered, the first one of each id being kept. */
  function With(known: map<Id, Record>, rs: seq<Record>): (m: map<Id, Record>)
    ensures forall id :: id in known ==> id in m && m[id] == known[id]
    ensures forall id :: id in m <==> id in known || exists r :: r in rs && r.id == id
    ensures forall id :: id in m && id !in known ==> m[id] in rs && m[id].id == id
  {
    if rs == [] then known
    else
      assert rs == rs[..|rs| - 1] + [rs[|rs| - 1]];
      var m, r := With(known, rs[..|rs| - 1]), rs[|rs| - 1];
      if r.id in m then m else m[r.id := r]
  }

  function RecordIds(rs: seq<Record>): (ids: seq<Id>)
    ensures |ids| == |rs| && forall i :: 0 <= i < |rs| ==> ids[i] == rs[i].id
  {
    seq(|rs|, i requires 0 <= i < |rs| => rs[i].id)
  }

  lemma WithOneMore(known: map<Id, Record>, list: seq<Id>, rs: seq<Record>, r: Record)
    ensures With(known, rs + [r]) == if r.id in With(known, rs) then With(known, rs) else With(known, rs)[r.id := r]
    ensures Linked(list, RecordIds(rs + [r])) == AppendUnique(Linked(list, RecordIds(rs)), r.id)
  {
    assert (rs + [r])[..|rs|] == rs;
    assert RecordIds(rs + [r])[..|rs|] == RecordIds(rs);
  }

  /** One more record fits exactly when it belongs to the run and agrees with what is registered by then. */
  lemma CoherentStep(runId: string, known: map<Id, Record>, rs: seq<Record>, r: Record)
    requires Coherent(runId, known, rs)
    ensures var m := With(known, rs);
            Coherent(runId, known, rs + [r]) <==> r.runId == runId && (r.id in m ==> m[r.id] == r)
  {
    hide With;
    var m, next := With(known, rs), rs + [r];
    CoherentHolds(runId, known, rs);
    assert r in next && forall x :: x in next <==> x in rs || x == r;
    if r.runId == runId && (r.id in m ==> m[r.id] == r) {
      forall x | x in rs && x.id == r.id ensures x == r {
        assert x.id in m && m[x.id] == x;
      }
    }
    if Coherent(runId, known, next) && r.id in m && r.id !in known {
      assert m[r.id] in next;
    }
  }

  lemma {:induction false} CoherentHolds(runId: string, known: map<Id, Record>, rs: seq<Record>)
    requires Coherent(runId, known, rs)
    ensures forall r :: r in rs ==> r.id in With(known, rs) && With(known, rs)[r.id] == r
  {
    if rs != [] {
      var init, last := rs[..|rs| - 1], rs[|rs| - 1];
      assert rs == init + [last];
      CoherentHolds(runId, known, init);
    }
  }

  /** Registering changes nothing exactly when every id has a record already. */
  lemma {:induction false} RegisteringAddsNothing(known: map<Id, Record>, rs: seq<Record>)
    ensures With(known, rs) == known <==> forall r :: r in rs ==> r.id in known
  {
    if rs != [] {
      var init, last := rs[..|rs| - 1], rs[|rs| - 1];
      assert rs == init + [last];
      RegisteringAddsNothing(known, init);
      if With(known, rs) == known {
        assert forall r :: r in rs ==> r.id in With(known, rs);
      }
    }
  }

  class RunEvidenceStore {
    const runId: string
    var records: map<Id, Record>
    var order: seq<Id>                    // insertion order of the records
    var taskInputs: map<string, seq<Id>>
    var consumers: seq<string>            // insertion order of the tasks with inputs
    var taskOutputs: map<string, seq<Id>>
    var announced: set<Id>
    ghost var emitted: seq<Id>            // every acceptance ever announced

    constructor (runId: string)
      ensures this.runId == runId && records == map[] && taskInputs == map[] && taskOutputs == map[] && emitted == []
              && Valid()
    {
      this.runId := runId;
      records, order, taskInputs, consumers, taskOutputs := map[], [], map[], [], map[];
      announced, emitted := {}, [];
    }

    ghost predicate RecordsValid()
      reads `records, `order
    {
      && (forall id :: id in records ==> records[id].id == id && records[id].runId == runId)
      && Distinct(order) && (forall id :: id in order <==> id in records)
    }

    ghost predicate ListsValid(lists: map<string, seq<Id>>)
      reads `records
    {
      forall task :: task in lists ==> Distinct(lists[task]) && forall id :: id in lists[task] ==> id in records
    }

    ghost predicate Valid()
      reads this
    {
      && RecordsValid() && ListsValid(taskInputs) && ListsValid(taskOutputs)
      && Distinct(consumers) && (forall task :: task in consumers <==> task in taskInputs)
      && Distinct(emitted) && (forall id :: id in emitted <==> id in announced) && announced <= records.Keys
    }

    /** Earlier records are kept as they are. */
    twostate predicate KeepsRecords()
      reads this
    {
      forall id :: id in old(records) ==> id in records && records[id] == old(records[id])
    }

    method RegisterRecord(r: Record) returns (error: Option<Error>)
      requires RecordsValid()
      modifies this`records, this`order
      ensures RecordsValid() && KeepsRecords()
      ensures error == if r.runId != runId then Some(WrongRun)
                       else if r.id in old(records) && old(records)[r.id] != r then Some(Collision) else None
      ensures records == if error.Some? || r.id in old(records) then old(records) else old(records)[r.id := r]
      ensures order == if error.Some? then old(order) else AppendUnique(old(order), r.id)
    {
      if r.runId != runId {
        return Some(WrongRun);
      }
      if r.id in records && records[r.id] != r {
        return Some(Collision);
      }
      if r.id !in records {
        records := records[r.id := r];
        order := order + [r.id];
      }
      return None;
    }

    /** The loop over the records, which the first one that does not fit ends. */
    method RegisterInOrder(rs: seq<Record>) returns (error: Option<Error>, ghost k: nat)
      requires RecordsValid()
      modifies this`records, this`order
      ensures RecordsValid() && k <= |rs| && k == FirstRefused(runId, old(records), rs)
      ensures records == With(old(records), rs[..k]) && order == Linked(old(order), RecordIds(rs[..k]))
      ensures error.None? <==> k == |rs|
      ensures error.Some? ==> error == Some(if rs[k].runId != runId then WrongRun else Collision)
    {
      hide RecordsValid, Coherent, With, Linked, AppendUnique, RecordIds;
      error := None;
      NothingRegistered(runId, records, order);
      assert rs[..0] == [];
      for i := 0 to |rs|
        invariant RecordsValid() && error.None?
        invariant Coherent(runId, old(records), rs[..i])
        invariant records == With(old(records), rs[..i]) && order == Linked(old(order), RecordIds(rs[..i]))
      {
        assert rs[..i + 1] == rs[..i] + [rs[i]];
        CoherentStep(runId, old(records), rs[..i], rs[i]);
        WithOneMore(old(records), old(order), rs[..i], rs[i]);
        error := RegisterRecord(rs[i]);
        if error.Some? {
          FirstRefusedIs(runId, old(records), rs, i);
          k := i;
          return;
        }
      }
      k := |rs|;
      FirstRefusedIs(runId, old(records), rs, k);
    }

    /** Registers records in order; the first one that does not fit ends it with exactly the earlier ones
        registered. */
    method RegisterRecords(rs: seq<Record>) returns (error: Option<Error>)
      requires Valid()
      modifies this`records, this`order
      ensures Valid() && KeepsRecords()
      ensures var k := FirstRefused(runId, old(records), rs);
              && (error.None? <==> k == |rs|)
              && (error.Some? ==> error == Some(if rs[k].runId != runId then WrongRun else Collision))
              && records == With(old(records), rs[..k])
              && order == Linked(old(order), RecordIds(rs[..k]))
    {
      hide RecordsValid, Coherent, With, Linked, RecordIds, Distinct;
      ghost var k;
      error, k := RegisterInOrder(rs);
    }

    /** The accepted records are among the registered ones. */
    ghost predicate Registered(accepted: seq<Record>)
      reads `records
    {
      forall r :: r in accepted ==> r.id in records && records[r.id] == r
    }

    /** Sorts the accepted records into the task's inputs and outputs and announces the new ones. */
    method Accept(a: Acquisition) returns (routing: Routing)
      requires Valid() && Registered(a.accepted)
      modifies this`announced, this`emitted
      ensures Valid()
      ensures routing.outputs == IdsOf(a.accepted, ProducedBy(a.taskId))
      ensures routing.inputs == IdsOf(a.accepted, ProducedElsewhere(a.taskId))
      ensures forall id :: id in routing.outputs || id in routing.inputs ==> id in records
      ensures forall id :: id in routing.intents <==> id in CreatedIds(a) && id !in old(emitted)
                                                      && exists x :: x in a.accepted && x.id == id
      ensures emitted == old(emitted) + routing.intents
    {
      hide RecordsValid, ListsValid;
      routing := Announce(a);
      AnnouncedOnce(old(emitted), old(announced), routing.intents, a);
    }

    /** The loop over the accepted records. */
    method Announce(a: Acquisition) returns (routing: Routing)
      modifies this`announced, this`emitted
      ensures routing.outputs == IdsOf(a.accepted, ProducedBy(a.taskId))
      ensures routing.inputs == IdsOf(a.accepted, ProducedElsewhere(a.taskId))
      ensures routing.intents == IdsOf(a.accepted, FirstAccepted(CreatedIds(a), old(announced)))
      ensures forall id :: id in announced <==> id in old(announced) || id in routing.intents
      ensures emitted == old(emitted) + routing.intents
    {
      hide Distinct, IdsOf, CreatedIds, ProducedBy, ProducedElsewhere, FirstAccepted;
      var inputs, outputs, intents: seq<Id> := [], [], [];
      var created := CreatedIds(a);
      IdsOfNothing(a.accepted, ProducedBy(a.taskId));
      IdsOfNothing(a.accepted, ProducedElsewhere(a.taskId));
      IdsOfNothing(a.accepted, FirstAccepted(created, announced));
      for i := 0 to |a.accepted|
        invariant outputs == IdsOf(a.accepted[..i], ProducedBy(a.taskId))
        invariant inputs == IdsOf(a.accepted[..i], ProducedElsewhere(a.taskId))
        invariant intents == IdsOf(a.accepted[..i], FirstAccepted(created, old(announced)))
        invariant forall id :: id in announced <==> id in old(announced) || id in intents
        invariant emitted == old(emitted) + intents
      {
        var r := a.accepted[i];
        OneMoreAccepted(a, i, created, old(announced));
        if r.producer == a.taskId {
          outputs := AppendUnique(outputs, r.id);
        } else {
          inputs := AppendUnique(inputs, r.id);
        }
        if r.id !in created || r.id in announced {
          continue;
        }
        announced := announced + {r.id};
        intents := intents + [r.id];
        emitted := emitted + [r.id];
      }
      assert a.accepted[..|a.accepted|] == a.accepted;
      routing := Routing(inputs, outputs, intents);
    }

    /** Sorts and announces an acquisition whose records are registered, and sets the task's lists. */
    method Settle(a: Acquisition) returns (routing: Routing)
      requires Valid() && Registered(a.accepted)
      modifies this`announced, this`emitted, this`taskInputs, this`taskOutputs, this`consumers
      ensures Valid()
      ensures taskInputs == old(taskInputs)[a.taskId := routing.inputs]
      ensures taskOutputs == old(taskOutputs)[a.taskId := routing.outputs]
      ensures routing.outputs == IdsOf(a.accepted, ProducedBy(a.taskId))
      ensures routing.inputs == IdsOf(a.accepted, ProducedElsewhere(a.taskId))
      ensures emitted == old(emitted) + routing.intents
      ensures forall id :: id in routing.intents <==> id in CreatedIds(a) && id !in old(emitted)
                                                      && exists x :: x in a.accepted && x.id == id
    {
      hide Distinct, RecordsValid, ListsValid, IdsOf, ListOf;
      routing := Accept(a);
      OpenInputs(a.taskId);
      SetLists(a.taskId, routing.inputs, routing.outputs);
    }

    /** Registers an acquisition. A refusal leaves lists and announcements as they were, but the records
        before the first one that does not fit stay registered. So a refused call changes nothing exactly
        when it is refused before the records, or when those records were registered already. */
    method RegisterAcquisition(a: Acquisition) returns (r: Result<Routing, Error>)
      requires Valid() && forall x :: x in a.accepted ==> x in a.records
      modifies this
      ensures Valid() && KeepsRecords()
      ensures var k := FirstRefused(runId, old(records), a.records);
              && (!Belongs(runId, a.taskId) ==> r == Err(WrongRun))
              && (Belongs(runId, a.taskId) && !Attributed(a) ==> r == Err(WrongProducer))
              && (Belongs(runId, a.taskId) && Attributed(a) && k < |a.records| ==>
                    r == Err(if a.records[k].runId != runId then WrongRun else Collision))
              && (r.Ok? <==> Belongs(runId, a.taskId) && Attributed(a) && k == |a.records|)
              && records == (if Belongs(runId, a.taskId) && Attributed(a) then With(old(records), a.records[..k])
                             else old(records))
              && order == (if Belongs(runId, a.taskId) && Attributed(a)
                           then Linked(old(order), RecordIds(a.records[..k])) else old(order))
              && (r.Err? ==> (records == old(records) && order == old(order) <==>
                    || !Belongs(runId, a.taskId) || !Attributed(a)
                    || forall x :: x in a.records[..k] ==> x.id in old(records)))
      ensures r.Err? ==> taskInputs == old(taskInputs) && taskOutputs == old(taskOutputs) && announced == old(announced)
                         && emitted == old(emitted) && consumers == old(consumers)
      ensures r.Ok? ==>
                && taskInputs == old(taskInputs)[a.taskId := r.value.inputs]
                && taskOutputs == old(taskOutputs)[a.taskId := r.value.outputs]
                && Registered(a.records)
                && r.value.outputs == IdsOf(a.accepted, ProducedBy(a.taskId))
                && r.value.inputs == IdsOf(a.accepted, ProducedElsewhere(a.taskId))
                && emitted == old(emitted) + r.value.intents
                && (forall id :: id in r.value.intents <==> id in CreatedIds(a) && id !in old(emitted)
                                                            && exists x :: x in a.accepted && x.id == id)
    {
      hide Distinct, RecordsValid, ListsValid, Coherent, With, Linked, RecordIds, IdsOf, ListOf, Attributed, Belongs,
           FirstRefused, CreatedIds;
      assert forall id :: id in order <==> id in records by { OrderListsRecords(); }
      if !Belongs(runId, a.taskId) {
        return Err(WrongRun);
      }
      if !Attributed(a) {
        return Err(WrongProducer);
      }
      var error := RegisterRecords(a.records);
      if error.Some? {
        RefusedRegistration(old(records), old(order), a.records[..FirstRefused(runId, old(records), a.records)]);
        return Err(error.value);
      }
      assert a.records[..|a.records|] == a.records;
      CoherentHolds(runId, old(records), a.records);
      var routing := Settle(a);
      return Ok(routing);
    }

    lemma OrderListsRecords()
      requires Valid()
      ensures forall id :: id in order <==> id in records
    {
    }

    /** The task has an input list from here on, empty if it had none. */
    method OpenInputs(task: string)
      requires Valid()
      modifies this`taskInputs, this`consumers
      ensures Valid() && task in taskInputs && taskInputs == old(taskInputs)[task := ListOf(old(taskInputs), task)]
      ensures consumers == if task in old(taskInputs) then old(consumers) else old(consumers) + [task]
    {
      if task !in taskInputs {
        DistinctAppend(consumers, task);
        NothingIsDistinct();
        consumers := consumers + [task];
        taskInputs := taskInputs[task := []];
      }
    }

    method SetLists(task: string, inputs: seq<Id>, outputs: seq<Id>)
      requires Valid() && task in taskInputs && Distinct(inputs) && Distinct(outputs)
      requires forall id :: id in inputs || id in outputs ==> id in records
      modifies this`taskInputs, this`taskOutputs
      ensures Valid() && taskInputs == old(taskInputs)[task := inputs]
              && taskOutputs == old(taskOutputs)[task := outputs]
    {
      hide Distinct;
      taskInputs := taskInputs[task := inputs];
      taskOutputs := taskOutputs[task := outputs];
    }

    method AddInput(task: string, id: Id)
      requires Valid() && task in taskInputs && id in records
      modifies this`taskInputs
      ensures Valid() && taskInputs == old(taskInputs)[task := AppendUnique(old(taskInputs)[task], id)]
    {
      hide Distinct;
      taskInputs := taskInputs[task := AppendUnique(taskInputs[task], id)];
    }

    /** Adds references to a task's inputs; the first unknown one ends it with exactly the earlier ones
        added. So a refused call changes nothing exactly when the task is foreign, or when it has an input
        list that holds every id before the first unknown one. */
    method LinkInputs(task: string, ids: seq<Id>) returns (r: Result<seq<Id>, Error>)
      requires Valid()
      modifies this`taskInputs, this`consumers
      ensures Valid()
      ensures r == if !Belongs(runId, task) then Err(WrongRun)
                   else if exists id :: id in ids && id !in records then Err(UnknownEvidence)
                   else Ok(ListOf(taskInputs, task))
      ensures !Belongs(runId, task) ==> unchanged(this)
      ensures Belongs(runId, task) ==>
                var k := FirstUnknown(records, ids);
                && taskInputs == old(taskInputs)[task := Linked(ListOf(old(taskInputs), task), ids[..k])]
                && consumers == (if task in old(taskInputs) then old(consumers) else old(consumers) + [task])
                && (forall id :: id in taskInputs[task] <==> id in ListOf(old(taskInputs), task) || id in ids[..k])
                && (unchanged(this) <==>
                      task in old(taskInputs) && forall id :: id in ids[..k] ==> id in old(taskInputs)[task])
      ensures r.Ok? ==> task in taskInputs && FirstUnknown(records, ids) == |ids|
                        && forall id :: id in r.value <==> id in ListOf(old(taskInputs), task) || id in ids
    {
      hide Valid, Linked, FirstUnknown;
      if !Belongs(runId, task) {
        return Err(WrongRun);
      }
      OpenInputs(task);
      var k := LinkInOrder(task, ids);
      LinkChangesNothing(old(taskInputs), old(consumers), task, ids[..k]);
      if k < |ids| {
        assert ids[k] in ids;
        return Err(UnknownEvidence);
      }
      assert ids[..k] == ids;
      return Ok(taskInputs[task]);
    }

    /** The loop over the references, which the first unknown one ends. */
    method LinkInOrder(task: string, ids: seq<Id>) returns (k: nat)
      requires Valid() && task in taskInputs
      modifies this`taskInputs
      ensures Valid() && k == FirstUnknown(records, ids)
      ensures taskInputs == old(taskInputs)[task := Linked(old(taskInputs)[task], ids[..k])]
    {
      hide Valid, AppendUnique;
      k := 0;
      while k < |ids|
        invariant 0 <= k <= |ids| && Valid()
        invariant taskInputs == old(taskInputs)[task := Linked(old(taskInputs)[task], ids[..k])]
        invariant forall j :: 0 <= j < k ==> ids[j] in records
      {
        if ids[k] !in records {
          return;
        }
        assert ids[..k + 1][..k] == ids[..k];
        AddInput(task, ids[k]);
        k := k + 1;
      }
    }

    predicate Selected(id: Id, categories: Option<set<Category>>, purposes: Option<set<string>>)
      requires id in records
      reads this`records
    {
      var r := records[id];
      r.accepted && (categories.Some? ==> r.category in categories.value)
      && (purposes.Some? ==> r.purpose in purposes.value)
    }

    /** The accepted records of the given categories and purposes, in the order of their registration. */
    method SelectIds(categories: Option<set<Category>>, purposes: Option<set<string>>) returns (ids: seq<Id>)
      requires Valid()
      ensures Distinct(ids) && forall id :: id in ids <==> id in records && Selected(id, categories, purposes)
      ensures forall id :: id in ids <==>
                && id in records && records[id].accepted
                && (categories.Some? ==> records[id].category in categories.value)
                && (purposes.Some? ==> records[id].purpose in purposes.value)
      ensures InOrderOf(order, ids)
    {
      hide InOrderOf;
      ids := [];
      OrderOfNothing(order);
      for i := 0 to |order|
        invariant Distinct(ids) && InOrderOf(order[..i], ids)
        invariant forall id :: id in ids <==> id in order[..i] && id in records && Selected(id, categories, purposes)
      {
        assert order[i] in order && order[..i + 1] == order[..i] + [order[i]];
        OrderGrows(order, i, ids);
        if Selected(order[i], categories, purposes) {
          ids := ids + [order[i]];
        }
      }
      assert order[..|order|] == order;
    }

    /** The tasks that refer to a record: exactly those with it among their inputs. */
    method Lineage(id: Id) returns (r: Result<(Record, seq<string>), Error>)
      requires Valid()
      ensures r.Ok? <==> id in records
      ensures r.Ok? ==> && r.value.0 == records[id] && Distinct(r.value.1)
                        && forall task :: task in r.value.1 <==> task in taskInputs && id in taskInputs[task]
    {
      if id !in records {
        return Err(UnknownEvidence);
      }
      var tasks: seq<string> := [];
      for i := 0 to |consumers|
        invariant Distinct(tasks)
        invariant forall task ::
                    task in tasks <==> task in consumers[..i] && task in taskInputs && id in taskInputs[task]
      {
        assert consumers[i] in consumers && consumers[..i + 1] == consumers[..i] + [consumers[i]];
        if id in taskInputs[consumers[i]] {
          tasks := tasks + [consumers[i]];
        }
      }
      assert consumers[..|consumers|] == consumers;
      return Ok((records[id], tasks));
    }
  }

  lemma LinkChangesNothing(inputs: map<string, seq<Id>>, consumers: seq<string>, task: string, ids: seq<Id>)
    ensures inputs[task := Linked(ListOf(inputs, task), ids)] == inputs
            && (if task in inputs then consumers else consumers + [task]) == consumers
            <==> task in inputs && forall id :: id in ids ==> id in inputs[task]
  {
    hide Linked;
    LinkingAddsNothing(ListOf(inputs, task), ids);
    if task in inputs {
      assert inputs[task := inputs[task]] == inputs;
      assert inputs[task := Linked(inputs[task], ids)][task] == Linked(inputs[task], ids);
    }
  }

  lemma NothingRegistered(runId: string, known: map<Id, Record>, list: seq<Id>)
    ensures Coherent(runId, known, []) && With(known, []) == known && Linked(list, RecordIds([])) == list
  {
  }

  lemma RefusedRegistration(known: map<Id, Record>, order: seq<Id>, rs: seq<Record>)
    requires forall id :: id in order <==> id in known
    ensures With(known, rs) == known && Linked(order, RecordIds(rs)) == order <==> forall x :: x in rs ==> x.id in known
  {
    RegisteringAddsNothing(known, rs);
    LinkingAddsNothing(order, RecordIds(rs));
    if forall x :: x in rs ==> x.id in known {
      forall id | id in RecordIds(rs) ensures id in order {
        var i :| 0 <= i < |rs| && RecordIds(rs)[i] == id;
        assert rs[i] in rs;
      }
    }
  }

  // ---- Refused calls that leave something behind ----------------------------------------

  function SampleRecord(id: Id, runId: string): Record {
    Record(id, runId, "RUN:a", Market, "quote", true, "")
  }

  /** A link of a known and an unknown id is refused, and the known one is in the inputs afterwards. */
  method HalfLinked() returns (store: RunEvidenceStore, r: Result<seq<Id>, Error>)
    ensures fresh(store) && r == Err(UnknownEvidence)
    ensures store.taskInputs == map["RUN:b" := ["known"]] && "unknown" !in store.records
  {
    hide RunEvidenceStore.Valid, With, Linked, RecordIds, Coherent, FirstRefused, FirstUnknown, SampleRecord, Belongs;
    store := new RunEvidenceStore("RUN");
    var known := SampleRecord("known", "RUN");
    RunOfSample("known", "RUN");
    OneFits("RUN", known);
    var error := store.RegisterRecords([known]);
    assert [known][..1] == [known] && store.records == With(map[], [known]);
    OneKnown(known);
    var ids := ["known", "unknown"];
    FirstIsKnown(store.records, ids);
    r := store.LinkInputs("RUN:b", ids);
    assert "unknown" in ids;
  }

  lemma RunOfSample(id: Id, runId: string)
    ensures SampleRecord(id, runId).runId == runId && SampleRecord(id, runId).id == id
  {
  }

  lemma OneKnown(r: Record)
    ensures With(map[], [r]) == map[r.id := r]
  {
  }

  /** Two ids of which only the first is known, for a task of the run. */
  lemma FirstIsKnown(records: map<Id, Record>, ids: seq<Id>)
    requires ids == ["known", "unknown"] && "known" in records && records.Keys == {"known"}
    ensures "unknown" !in records && FirstUnknown(records, ids) == 1
    ensures Linked([], ids[..1]) == ["known"] && Belongs("RUN", "RUN:b")
  {
    assert |"known"| != |"unknown"|;
    assert ids[0] == "known" && ids[1] == "unknown" && ids[..1] == ["known"];
    assert "RUN:b"[..4] == "RUN" + ":";
  }

  /** An acquisition with a record of its own run and one of another is refused, and the first one is
      registered afterwards. */
  method HalfRegistered() returns (store: RunEvidenceStore, r: Result<Routing, Error>)
    ensures fresh(store) && r == Err(WrongRun)
    ensures store.records == map["good" := SampleRecord("good", "RUN")] && store.taskInputs == map[]
  {
    store := new RunEvidenceStore("RUN");
    var good, foreign := SampleRecord("good", "RUN"), SampleRecord("foreign", "OTHER");
    var a := Acquisition("RUN:a", [good, foreign], [], []);
    assert Belongs("RUN", "RUN:a") by { assert "RUN:a"[..4] == "RUN:"; }
    OneFits("RUN", good);
    assert a.records[..1] == [good] && a.records[..2] == a.records;
    assert foreign in a.records && "OTHER"[0] != "RUN"[0];
    FirstRefusedIs("RUN", map[], a.records, 1);
    assert With(map[], [good]) == map["good" := good];
    r := store.RegisterAcquisition(a);
  }

  lemma OneFits(runId: string, r: Record)
    requires r.runId == runId
    ensures Coherent(runId, map[], [r]) && FirstRefused(runId, map[], [r]) == 1
  {
    assert [r][..1] == [r];
    FirstRefusedIs(runId, map[], [r], 1);
  }

  lemma NothingIsDistinct()
    ensures Distinct([])
  {
  }

  lemma DistinctAppend(s: seq<Id>, x: Id)
    requires x !in s
    ensures Distinct(s) ==> Distinct(s + [x])
  {
  }

  lemma DistinctJoin(x: seq<Id>, y: seq<Id>)
    requires Distinct(x) && Distinct(y) && forall id :: id in y ==> id !in x
    ensures Distinct(x + y)
  {
    var s := x + y;
    forall i, j | 0 <= i < j < |s| ensures s[i] != s[j] {
      if i < |x| <= j {
        assert x[i] in x && y[j - |x|] in y;
      }
    }
  }

  /** New announcements join the old ones without repetition. */
  lemma AnnouncedOnce(emitted: seq<Id>, announced: set<Id>, intents: seq<Id>, a: Acquisition)
    requires Distinct(emitted) && forall id :: id in emitted <==> id in announced
    requires intents == IdsOf(a.accepted, FirstAccepted(CreatedIds(a), announced))
    ensures Distinct(emitted + intents)
    ensures forall id ::
              id in intents <==> id in CreatedIds(a) && id !in emitted && exists x :: x in a.accepted && x.id == id
  {
    var test := FirstAccepted(CreatedIds(a), announced);
    assert forall r :: test(r) <==> r.id in CreatedIds(a) && r.id !in announced;
    forall id | id in intents ensures id !in emitted {
      var r :| r in a.accepted && test(r) && r.id == id;
    }
    DistinctJoin(emitted, intents);
    forall id | id in CreatedIds(a) && id !in emitted && exists x :: x in a.accepted && x.id == id
      ensures id in intents
    {
      var x :| x in a.accepted && x.id == id;
      assert test(x);
    }
  }

  // ---- The router -----------------------------------------------------------------------

  datatype Task = Task(id: string, runId: string, taskType: string, goal: string, parent: Option<string>)

  /** What a task acquires, if anything: a collection task tells by its id and its goal. */
  function ScopeOf(task: Task): Option<Scopes.AcquisitionScope> {
    if task.taskType == "evidence_collection" then Some(Scopes.HintedScope(task.id + " " + task.goal))
    else if task.taskType == "peer_analysis" then Some(Scopes.Peer)
    else if task.taskType == "research_news_analysis" then Some(Scopes.ResearchNews)
    else None
  }

  predicate Acquires(task: Task) {
    ScopeOf(task).Some?
  }

  function InputCategories(taskType: string): Option<set<Category>> {
    if taskType == "fundamental_analysis" then Some({CompanyProfile, FinancialStatement, Market, Analyst})
    else if taskType == "peer_analysis" then Some({CompanyProfile, Market, Peer})
    else if taskType == "research_news_analysis" then Some({CompanyProfile, Market, Analyst, News, Transcript})
    else if taskType == "valuation_analysis" then Some({FinancialStatement, Market, Peer, Analyst})
    else if taskType == "risk_analysis" || taskType == "report_synthesis" then Some(ALL_CATEGORIES)
    else None
  }

  predicate Reads(taskType: string, c: Category) {
    InputCategories(taskType).Some? && c in InputCategories(taskType).value
  }

  /** Who reads what, category by category: the market is read by all four analyses, company profiles by all
      but valuation, analysts by all but peer analysis, statements by the two that value, peers by those that
      compare, news and transcripts by news analysis; risk analysis and synthesis read everything. */
  lemma ReadersOfEachCategory(taskType: string)
    ensures var all := taskType == "risk_analysis" || taskType == "report_synthesis";
            var (fundamental, peer) := (taskType == "fundamental_analysis", taskType == "peer_analysis");
            var (news, valuation) := (taskType == "research_news_analysis", taskType == "valuation_analysis");
            && (Reads(taskType, Market) <==> all || fundamental || peer || news || valuation)
            && (Reads(taskType, CompanyProfile) <==> all || fundamental || peer || news)
            && (Reads(taskType, Analyst) <==> all || fundamental || news || valuation)
            && (Reads(taskType, FinancialStatement) <==> all || fundamental || valuation)
            && (Reads(taskType, Peer) <==> all || peer || valuation)
            && (Reads(taskType, News) <==> all || news)
            && (Reads(taskType, Transcript) <==> all || news)
            && (Reads(taskType, OtherCategory) <==> all)
  {
  }

  function Without(ids: seq<Id>, dropped: set<Id>): (r: seq<Id>)
    ensures forall id :: id in r <==> id in ids && id !in dropped
  {
    if ids == [] then []
    else
      assert ids == ids[..|ids| - 1] + [ids[|ids| - 1]];
      Without(ids[..|ids| - 1], dropped) + if ids[|ids| - 1] in dropped then [] else [ids[|ids| - 1]]
  }

  /** Inputs and outputs of one acquisition have nothing in common: a record has one producer. */
  lemma InputsAndOutputsAreDisjoint(records: map<Id, Record>, a: Acquisition)
    requires forall r :: r in a.accepted ==> r.id in records && records[r.id] == r
    ensures forall id :: !(id in IdsOf(a.accepted, ProducedBy(a.taskId))
                           && id in IdsOf(a.accepted, ProducedElsewhere(a.taskId)))
  {
  }

  /** An accepted record of one of the task's categories. */
  predicate OfCategory(records: map<Id, Record>, task: Task, id: Id) {
    && id in records && records[id].accepted
    && InputCategories(task.taskType).Some? && records[id].category in InputCategories(task.taskType).value
  }

  predicate FollowsUp(task: Task) {
    task.taskType == "risk_follow_up" && task.parent.Some? && task.parent.value != ""
  }

  /** A follow-up without a parent refers to nothing. */
  lemma OrphanRefersToNothing(router: EvidenceTaskRouter, task: Task, id: Id)
    requires task.taskType == "risk_follow_up" && task.parent in {None, Some("")}
    ensures !router.Refers(task, id)
  {
  }

  class EvidenceTaskRouter {
    const store: RunEvidenceStore

    constructor (store: RunEvidenceStore)
      ensures this.store == store
    {
      this.store := store;
    }

    /** The task refers to the record: by category, or as an accepted input of the parent of a follow-up. */
    ghost predicate Refers(task: Task, id: Id)
      reads store
    {
      if FollowsUp(task) then
        id in store.records && store.records[id].accepted && id in ListOf(store.taskInputs, task.parent.value)
      else OfCategory(store.records, task, id)
    }

    method Select(task: Task) returns (selected: seq<Id>)
      requires store.Valid()
      ensures forall id :: id in selected <==> Refers(task, id)
    {
      selected := [];
      var categories := InputCategories(task.taskType);
      if categories.Some? {
        selected := store.SelectIds(categories, None);
      }
      if FollowsUp(task) {
        var accepted := store.SelectIds(None, None);
        var inherited := ListOf(store.taskInputs, task.parent.value);
        selected := Without(inherited, set id | id in inherited && id !in accepted);
      }
    }

    lemma ReferredIsKnown(task: Task)
      ensures forall id :: Refers(task, id) ==> id in store.records
    {
    }

    /** Links what the task refers to; nothing is acquired. Only a foreign task is refused. */
    method Reference(task: Task) returns (r: Result<Routing, Error>)
      requires store.Valid()
      modifies store
      ensures store.Valid() && store.records == old(store.records) && store.emitted == old(store.emitted)
      ensures store.taskOutputs == old(store.taskOutputs)
      ensures r.Ok? <==> Belongs(store.runId, task.id)
      ensures r.Err? ==> r == Err(WrongRun) && unchanged(store)
      ensures r.Ok? ==>
                && r.value.outputs == [] && r.value.intents == []
                && task.id in store.taskInputs && store.taskInputs[task.id] == r.value.inputs
                && (forall id ::
                      id in r.value.inputs <==> id in ListOf(old(store.taskInputs), task.id) || old(Refers(task, id)))
    {
      hide Distinct, RunEvidenceStore.Valid, Linked, FirstUnknown, Refers;
      var selected := Select(task);
      ReferredIsKnown(task);
      var linked := store.LinkInputs(task.id, selected);
      r := if linked.Ok? then Ok(Routing(linked.value, [], [])) else Err(linked.error);
    }

    /** Links what the task refers to by category, except for what it just produced. */
    method LinkOthers(task: Task, produced: seq<Id>) returns (inputs: seq<Id>)
      requires store.Valid() && !FollowsUp(task) && Belongs(store.runId, task.id)
      modifies store
      ensures store.Valid() && store.records == old(store.records) && store.emitted == old(store.emitted)
      ensures store.taskOutputs == old(store.taskOutputs)
      ensures task.id in store.taskInputs && store.taskInputs[task.id] == inputs
      ensures forall id :: id in inputs <==> || id in ListOf(old(store.taskInputs), task.id)
                                             || (OfCategory(store.records, task, id) && id !in produced)
    {
      hide Distinct, RunEvidenceStore.Valid, Linked, FirstUnknown, OfCategory, Belongs;
      var selected := Select(task);
      OfCategoryIsKnown(store.records, task);
      var others := Without(selected, set id | id in produced);
      var linked := store.LinkInputs(task.id, others);
      inputs := linked.value;
    }

    /** Registers what was collected for the task, then links what else it refers to. */
    method Acquire(task: Task, collected: Acquisition) returns (r: Result<Routing, Error>)
      requires store.Valid() && Acquires(task)
      requires AnswersFor(task, collected)
      modifies store
      ensures store.Valid() && store.KeepsRecords() && old(store.emitted) <= store.emitted
      ensures var refusal := Refusal(store.runId, old(store.records), collected);
              if refusal.None? then r.Ok? else r == Err(refusal.value)
      ensures r.Ok? ==>
                && task.id in store.taskInputs && store.taskInputs[task.id] == r.value.inputs
                && store.taskOutputs == old(store.taskOutputs)[task.id := r.value.outputs]
                && store.emitted == old(store.emitted) + r.value.intents
                && Acquired(store.records, task, collected, r.value)
      ensures r.Err? ==> store.taskInputs == old(store.taskInputs) && store.taskOutputs == old(store.taskOutputs)
                         && store.emitted == old(store.emitted)
    {
      hide Distinct, RunEvidenceStore.Valid, IdsOf, FirstRefused, With, Linked, RecordIds, Coherent, Attributed,
           Belongs, OfCategory;
      var acquired := store.RegisterAcquisition(collected);
      if acquired.Err? {
        return Err(acquired.error);
      }
      InputsAndOutputsAreDisjoint(store.records, collected);
      var inputs := LinkOthers(task, acquired.value.outputs);
      return Ok(Routing(inputs, acquired.value.outputs, acquired.value.intents));
    }

    /** Routes one task: it acquires what the collector collects for the task's scope. Whatever it acquires,
        its inputs and outputs have nothing in common. A refused route leaves lists and announcements as
        they were. */
    method Route(task: Task, acquire: bool, collect: Scopes.AcquisitionScope -> Option<Acquisition>)
      returns (r: Result<Routing, Error>)
      requires store.Valid()
      requires forall scope :: collect(scope).Some? ==> AnswersFor(task, collect(scope).value)
      modifies store
      ensures store.Valid() && store.KeepsRecords() && old(store.emitted) <= store.emitted
      ensures task.runId != store.runId ==> r == Err(WrongRun) && unchanged(store)
      ensures task.runId == store.runId && !(acquire && Acquires(task)) ==>
                if Belongs(store.runId, task.id) then r.Ok? else r == Err(WrongRun)
      ensures task.runId == store.runId && acquire && Acquires(task) ==>
                var collected := collect(ScopeOf(task).value);
                if collected.None? then r == Err(CollectorFailed) && unchanged(store)
                else
                  var refusal := Refusal(store.runId, old(store.records), collected.value);
                  if refusal.None? then r.Ok? else r == Err(refusal.value)
      ensures r.Ok? ==> task.id in store.taskInputs && store.taskInputs[task.id] == r.value.inputs
      ensures r.Ok? && acquire && Acquires(task) ==>
                && collect(ScopeOf(task).value).Some?
                && Acquired(store.records, task, collect(ScopeOf(task).value).value, r.value)
                && store.taskOutputs == old(store.taskOutputs)[task.id := r.value.outputs]
                && store.emitted == old(store.emitted) + r.value.intents
      ensures r.Ok? && !(acquire && Acquires(task)) ==>
                && r.value.outputs == [] && r.value.intents == [] && store.emitted == old(store.emitted)
                && store.taskOutputs == old(store.taskOutputs) && store.records == old(store.records)
                && (forall id ::
                      id in r.value.inputs <==> id in ListOf(old(store.taskInputs), task.id) || old(Refers(task, id)))
      ensures r.Err? ==> store.taskInputs == old(store.taskInputs) && store.taskOutputs == old(store.taskOutputs)
                         && store.emitted == old(store.emitted)
    {
      hide Distinct, RunEvidenceStore.Valid, IdsOf, Refers, ListOf, Acquired;
      if task.runId != store.runId {
        return Err(WrongRun);
      }
      if !(acquire && Acquires(task)) {
        r := Reference(task);
        return;
      }
      var collected := collect(ScopeOf(task).value);
      if collected.None? {
        return Err(CollectorFailed);
      }
      r := Acquire(task, collected.value);
    }
  }

  lemma OfCategoryIsKnown(records: map<Id, Record>, task: Task)
    ensures forall id :: OfCategory(records, task, id) ==> id in records
  {
  }

  /** Why an acquisition is refused, if it is: the task is foreign, a new record has another producer, or a
      record is of another run or contradicts one that is known by then. */
  ghost function Refusal(runId: string, known: map<Id, Record>, a: Acquisition): Option<Error> {
    if !Belongs(runId, a.taskId) then Some(WrongRun)
    else if !Attributed(a) then Some(WrongProducer)
    else
      var k := FirstRefused(runId, known, a.records);
      if k == |a.records| then None else Some(if a.records[k].runId != runId then WrongRun else Collision)
  }

  /** An acquisition is accepted exactly for a task of the run whose new records name it as their producer,
      and whose records are all of the run and contradict neither what is known nor each other. */
  lemma NotRefusedMeans(runId: string, known: map<Id, Record>, a: Acquisition)
    ensures Refusal(runId, known, a).None? <==>
            && (exists key :: a.taskId == runId + ":" + key)
            && (forall x :: x in a.created ==> x.producer == a.taskId)
            && (forall r :: r in a.records ==> r.runId == runId && (r.id in known ==> known[r.id] == r))
            && (forall x, y :: x in a.records && y in a.records && x.id == y.id ==> x == y)
  {
    BelongsMeans(runId, a.taskId);
    assert a.records[..|a.records|] == a.records;
    if Coherent(runId, known, a.records) {
      FirstRefusedIs(runId, known, a.records, |a.records|);
    }
  }

  /** What was collected is for the task, and what is accepted of it was ingested. */
  predicate AnswersFor(task: Task, collected: Acquisition) {
    collected.taskId == task.id && forall x :: x in collected.accepted ==> x in collected.records
  }

  /** The routing of an acquisition: what the task produced, and what it refers to besides. */
  ghost predicate Acquired(records: map<Id, Record>, task: Task, a: Acquisition, routing: Routing) {
    && routing.outputs == IdsOf(a.accepted, ProducedBy(task.id))
    && (forall id :: id in routing.inputs <==>
          || id in IdsOf(a.accepted, ProducedElsewhere(task.id))
          || (OfCategory(records, task, id) && id !in routing.outputs))
    && forall id :: !(id in routing.inputs && id in routing.outputs)
  }
}
