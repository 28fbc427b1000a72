/** Sorting a set of days. */
module Days {

  /** The days in ascending order. */
  method SortDays(days: set<nat>) returns (sorted: seq<nat>)
    ensures forall d :: d in sorted <==> d in days
    ensures forall i, j :: 0 <= i < j < |sorted| ==> sorted[i] < sorted[j]
  {
    sorted := [];
    var rest := days;
    while rest != {}
      invariant rest <= days && forall d :: d in sorted <==> d in days && d !in rest
      invariant forall i, j :: 0 <= i < j < |sorted| ==> sorted[i] < sorted[j]
      invariant forall d, e :: d in sorted && e in rest ==> d < e
      decreases rest
    {
      var least := Least(rest);
      forall i | 0 <= i < |sorted| ensures sorted[i] < least {
        assert sorted[i] in sorted;
      }
      sorted := sorted + [least];
      rest := rest - {least};
    }
  }

  method Least(s: set<nat>) returns (m: nat)
    requires s != {}
    ensures m in s && forall d :: d in s ==> m <= d
  {
    var first :| first in s;
    m := first;
    var rest := s - {first};
    while rest != {}
      invariant rest <= s && m in s && forall d :: d in s && d !in rest ==> m <= d
      decreases rest
    {
      var d :| d in rest;
      if d < m {
        m := d;
      }
      rest := rest - {d};
    }
  }
}

/** The price history that technical indicators are computed from: evidence sorted, grouped by day, and
    folded to at most one price and one volume for each day. */
module PriceHistory {
  import opened Days
  import opened Wrappers

  datatype Field = AdjustedClose | Close | Volume | OtherField

  /** An evidence record. `id` stands for the rank of the record's id, `day` for its date, `market` for its
      being an accepted daily record of the historical market context. */
  datatype Quote = Quote(id: nat, day: nat, field: Field, market: bool, body: string)

  predicate IsCandidate(q: Quote) {
    q.market && q.field != OtherField
  }

  function Rank(f: Field): int {
    match f
    case AdjustedClose => 0
    case Close => 1
    case Volume => 2
    case OtherField => 3
  }

  /** The sort key's order. */
  predicate Before(a: Quote, b: Quote) {
    a.day < b.day || (a.day == b.day && (Rank(a.field) < Rank(b.field) || (a.field == b.field && a.id < b.id)))
  }

  predicate IsPriceField(f: Field) {
    f in {AdjustedClose, Close}
  }

  /** Evidence ids are unique. */
  ghost predicate UniqueIds(s: set<Quote>) {
    forall a, b :: a in s && b in s && a.id == b.id ==> a == b
  }

  function CandidatesOf(evidence: seq<Quote>): set<Quote> {
    set q | q in evidence && IsCandidate(q)
  }

  // ---- What a history is ----------------------------------------------------------------

  /** The price of a day: its adjusted close with the largest id, or else its close with the smallest. */
  ghost predicate IsPrice(s: set<Quote>, q: Quote) {
    && q in s && IsPriceField(q.field)
    && (q.field == AdjustedClose ==> forall o :: o in s && o.day == q.day && o.field == AdjustedClose ==> o.id <= q.id)
    && (q.field == Close ==> forall o :: o in s && o.day == q.day && IsPriceField(o.field) ==>
          o.field == Close && q.id <= o.id)
  }

  /** The volume of a day: the one with the largest id. */
  ghost predicate IsVolume(s: set<Quote>, q: Quote) {
    q in s && q.field == Volume && forall o :: o in s && o.day == q.day && o.field == Volume ==> o.id <= q.id
  }

  /** Days ascend, and within a day the price comes before the volume. */
  predicate Follows(a: Quote, b: Quote) {
    a.day < b.day || (a.day == b.day && IsPriceField(a.field) && b.field == Volume)
  }

  ghost predicate Ascending(h: seq<Quote>) {
    forall i, j :: 0 <= i < j < |h| ==> Follows(h[i], h[j])
  }

  /** The history of a set of candidates: the price and the volume of each day, in order, and nothing else. */
  ghost predicate IsHistory(s: set<Quote>, h: seq<Quote>) {
    && Ascending(h)
    && forall q :: q in h <==> IsPrice(s, q) || IsVolume(s, q)
  }

  lemma {:induction false} AscendingIsUnique(x: seq<Quote>, y: seq<Quote>)
    requires Ascending(x) && Ascending(y) && forall q :: q in x <==> q in y
    ensures x == y
  {
    if x == [] {
      assert y == [] by { NothingListed(y); }
    } else {
      assert x[0] in x;
      var i :| 0 <= i < |y| && y[i] == x[0];
      assert y[0] in x;
      var j :| 0 <= j < |x| && x[j] == y[0];
      assert i == 0;
      forall q ensures q in x[1..] <==> q in y[1..] {
        TailHolds(x, q);
        TailHolds(y, q);
      }
      AscendingIsUnique(x[1..], y[1..]);
      assert x == [x[0]] + x[1..] && y == [y[0]] + y[1..];
    }
  }

  lemma NothingListed(h: seq<Quote>)
    ensures h == [] || exists q :: q in h
  {
    if h != [] {
      assert h[0] in h;
    }
  }

  lemma TailHolds(h: seq<Quote>, q: Quote)
    requires Ascending(h) && h != []
    ensures q in h[1..] <==> q in h && q != h[0]
  {
    assert h == [h[0]] + h[1..];
    if q in h[1..] {
      var k :| 0 <= k < |h[1..]| && h[1..][k] == q;
      assert Follows(h[0], h[k + 1]);
    }
  }

  /** A set of candidates has one history. */
  lemma HistoryIsUnique(s: set<Quote>, x: seq<Quote>, y: seq<Quote>)
    requires IsHistory(s, x) && IsHistory(s, y)
    ensures x == y
  {
    AscendingIsUnique(x, y);
  }

  // ---- Sorting --------------------------------------------------------------------------

  ghost predicate Sorted(qs: seq<Quote>) {
    forall i, j :: 0 <= i < j < |qs| ==> Before(qs[i], qs[j])
  }

  function Place(q: Quote, qs: seq<Quote>): (r: seq<Quote>)
    ensures forall x :: x in r <==> x == q || x in qs
  {
    if qs == [] then [q]
    else if Before(q, qs[0]) then [q] + qs
    else
      assert qs == [qs[0]] + qs[1..];
      [qs[0]] + Place(q, qs[1..])
  }

  /** Each record once, in the order of the sort key. */
  function Sort(qs: seq<Quote>): (r: seq<Quote>)
    ensures forall x :: x in r <==> x in qs
  {
    if qs == [] then []
    else
      assert qs == qs[..|qs| - 1] + [qs[|qs| - 1]];
      var rest, q := Sort(qs[..|qs| - 1]), qs[|qs| - 1];
      if q in rest then rest else Place(q, rest)
  }

  lemma {:induction false} PlaceSorts(q: Quote, qs: seq<Quote>)
    requires Sorted(qs) && forall x :: x in qs ==> Before(x, q) || Before(q, x)
    ensures Sorted(Place(q, qs))
  {
    if qs != [] && !Before(q, qs[0]) {
      assert Before(qs[0], q) by { assert qs[0] in qs; }
      assert forall x :: x in qs[1..] ==> x in qs;
      PlaceSorts(q, qs[1..]);
      var r := Place(q, qs[1..]);
      forall i, j | 0 <= i < j < |[qs[0]] + r| ensures Before(([qs[0]] + r)[i], ([qs[0]] + r)[j]) {
        if i == 0 {
          assert r[j - 1] in r;
        }
      }
    }
  }

  lemma {:induction false} SortSorts(qs: seq<Quote>, s: set<Quote>)
    requires UniqueIds(s) && forall q :: q in qs ==> q in s
    ensures Sorted(Sort(qs))
  {
    if qs != [] {
      var init, q := qs[..|qs| - 1], qs[|qs| - 1];
      assert qs == init + [q];
      SortSorts(init, s);
      if q !in Sort(init) {
        forall x | x in Sort(init) ensures Before(x, q) || Before(q, x) {
          assert x in s && q in s && x != q;
        }
        PlaceSorts(q, Sort(init));
      }
    }
  }

  // ---- The fold -------------------------------------------------------------------------

  datatype Day = Day(close: Option<Quote>, volume: Option<Quote>)

  /** The fold's entry for a day says what the records seen so far say. */
  ghost predicate DayTells(seen: set<Quote>, day: nat, entry: Day) {
    && (match entry.close
        case Some(q) => q.day == day && IsPrice(seen, q)
        case None => forall o :: o in seen && o.day == day ==> !IsPriceField(o.field))
    && (match entry.volume
        case Some(q) => q.day == day && IsVolume(seen, q)
        case None => forall o :: o in seen && o.day == day ==> o.field != Volume)
  }

  ghost predicate Grouped(seen: set<Quote>, grouped: map<nat, Day>) {
    && (forall d: nat :: d in grouped <==> exists q :: q in seen && q.day == d)
    && (forall d :: d in grouped ==> DayTells(seen, d, grouped[d]))
  }

  function EntryOf(grouped: map<nat, Day>, d: nat): Day {
    if d in grouped then grouped[d] else Day(None, None)
  }

  /** One more record in sort order. */
  function Folded(entry: Day, q: Quote): Day {
    match q.field
    case AdjustedClose => entry.(close := Some(q))
    case Close => entry.(close := if entry.close.Some? then entry.close else Some(q))
    case _ => entry.(volume := Some(q))
  }

  lemma FoldTells(seen: set<Quote>, entry: Day, q: Quote)
    requires DayTells(seen, q.day, entry) && IsCandidate(q)
    requires forall o :: o in seen ==> Before(o, q)
    ensures DayTells(seen + {q}, q.day, Folded(entry, q))
  {
  }

  lemma OtherDaysTell(seen: set<Quote>, day: nat, entry: Day, q: Quote)
    requires DayTells(seen, day, entry) && q.day != day
    ensures DayTells(seen + {q}, day, entry)
  {
  }

  lemma FoldGroups(seen: set<Quote>, grouped: map<nat, Day>, q: Quote)
    requires Grouped(seen, grouped) && IsCandidate(q) && forall o :: o in seen ==> Before(o, q)
    ensures Grouped(seen + {q}, grouped[q.day := Folded(EntryOf(grouped, q.day), q)])
  {
    hide DayTells, Folded, IsCandidate;
    var next := grouped[q.day := Folded(EntryOf(grouped, q.day), q)];
    if q.day !in grouped {
      EmptyTells(seen, q.day);
    }
    FoldTells(seen, EntryOf(grouped, q.day), q);
    forall d | d in next ensures DayTells(seen + {q}, d, next[d]) {
      if d != q.day {
        OtherDaysTell(seen, d, grouped[d], q);
      }
    }
    forall d: nat ensures d in next <==> exists o :: o in seen + {q} && o.day == d {
      if d == q.day {
        assert q in seen + {q};
      } else if d in grouped {
        var o :| o in seen && o.day == d;
        assert o in seen + {q};
      }
    }
  }

  lemma EmptyTells(seen: set<Quote>, day: nat)
    requires !exists q :: q in seen && q.day == day
    ensures DayTells(seen, day, Day(None, None))
  {
  }

  /** The grouping loop over the sorted candidates. */
  method GroupByDay(sorted: seq<Quote>) returns (grouped: map<nat, Day>)
    requires Sorted(sorted) && forall q :: q in sorted ==> IsCandidate(q)
    ensures Grouped((set q | q in sorted), grouped)
  {
    hide IsCandidate, Grouped;
    grouped := map[];
    ghost var seen: set<Quote> := {};
    assert Grouped(seen, grouped) by { NothingGrouped(); }
    for i := 0 to |sorted|
      invariant seen == set q | q in sorted[..i]
      invariant Grouped(seen, grouped)
    {
      var q := sorted[i];
      forall o | o in seen ensures Before(o, q) {
        var k :| 0 <= k < i && sorted[..i][k] == o;
        assert sorted[k] == o;
      }
      FoldGroups(seen, grouped, q);
      assert sorted[..i + 1] == sorted[..i] + [q];
      var entry := EntryOf(grouped, q.day);
      if q.field == AdjustedClose {
        entry := entry.(close := Some(q));
      } else if q.field == Close {
        if entry.close.None? {
          entry := entry.(close := Some(q));
        }
      } else {
        entry := entry.(volume := Some(q));
      }
      assert entry == Folded(EntryOf(grouped, q.day), q) by { CandidateFields(q); }
      grouped := grouped[q.day := entry];
      seen := seen + {q};
    }
    assert sorted[..|sorted|] == sorted;
  }

  lemma NothingGrouped()
    ensures Grouped({}, map[])
  {
  }

  lemma CandidateFields(q: Quote)
    requires IsCandidate(q)
    ensures q.field in {AdjustedClose, Close, Volume}
  {
  }

  // ---- From groups to a history ---------------------------------------------------------

  function EntryQuotes(entry: Day): seq<Quote> {
    (if entry.close.Some? then [entry.close.value] else []) + if entry.volume.Some? then [entry.volume.value] else []
  }

  lemma EntryIsOrdered(seen: set<Quote>, d: nat, entry: Day)
    requires DayTells(seen, d, entry)
    ensures Ascending(EntryQuotes(entry)) && forall q :: q in EntryQuotes(entry) ==> q.day == d
    ensures forall q :: q in EntryQuotes(entry) ==> IsPrice(seen, q) || IsVolume(seen, q)
  {
  }

  /** Every price and every volume of the records is in its day's entry. */
  lemma EntryIsComplete(seen: set<Quote>, grouped: map<nat, Day>, q: Quote)
    requires Grouped(seen, grouped) && UniqueIds(seen) && (IsPrice(seen, q) || IsVolume(seen, q))
    ensures q.day in grouped && q in EntryQuotes(grouped[q.day])
  {
    assert q in seen;
    var entry := grouped[q.day];
    assert DayTells(seen, q.day, entry);
    if IsPrice(seen, q) {
      assert entry.close.Some?;
      assert entry.close.value == q;
    } else {
      assert entry.volume.Some?;
      assert entry.volume.value == q;
    }
  }

  method ListDays(ghost seen: set<Quote>, grouped: map<nat, Day>) returns (h: seq<Quote>)
    requires Grouped(seen, grouped) && UniqueIds(seen)
    ensures IsHistory(seen, h)
  {
    hide DayTells, EntryQuotes, UniqueIds, IsPrice, IsVolume;
    var days := SortDays(grouped.Keys);
    h := [];
    for i := 0 to |days|
      invariant Ascending(h) && forall q :: q in h ==> exists j :: 0 <= j < i && q.day == days[j]
      invariant forall q :: q in h ==> IsPrice(seen, q) || IsVolume(seen, q)
      invariant forall j, q :: 0 <= j < i && days[j] in grouped && q in EntryQuotes(grouped[days[j]]) ==> q in h
    {
      assert days[i] in days;
      var entry := grouped[days[i]];
      EntryIsOrdered(seen, days[i], entry);
      AscendingJoin(h, EntryQuotes(entry));
      h := h + EntryQuotes(entry);
    }
    forall q | IsPrice(seen, q) || IsVolume(seen, q) ensures q in h {
      EntryIsComplete(seen, grouped, q);
      assert q.day in days;
    }
  }

  lemma AscendingJoin(x: seq<Quote>, y: seq<Quote>)
    requires Ascending(x) && Ascending(y) && forall a, b :: a in x && b in y ==> a.day < b.day
    ensures Ascending(x + y)
  {
  }

  // ---- Paired days ----------------------------------------------------------------------

  /** The days of a history that have both a price and a volume. */
  function PairedDays(h: seq<Quote>): set<nat> {
    set q | q in h && IsPriceField(q.field) && HasVolume(h, q.day) :: q.day
  }

  predicate HasVolume(h: seq<Quote>, d: nat) {
    exists v :: v in h && v.field == Volume && v.day == d
  }

  /** The fold's own count of paired days is the size of this set. */
  function FullDays(grouped: map<nat, Day>): set<nat> {
    set d | d in grouped && grouped[d].close.Some? && grouped[d].volume.Some?
  }

  lemma FoldCountsPairs(seen: set<Quote>, grouped: map<nat, Day>, h: seq<Quote>)
    requires Grouped(seen, grouped) && UniqueIds(seen) && IsHistory(seen, h)
    ensures FullDays(grouped) == PairedDays(h)
  {
    hide UniqueIds, Ascending;
    var both := FullDays(grouped);
    forall d | d in both ensures d in PairedDays(h) {
      assert DayTells(seen, d, grouped[d]);
      assert grouped[d].close.value in h && grouped[d].volume.value in h;
    }
    forall d | d in PairedDays(h) ensures d in both {
      var q :| q in h && IsPriceField(q.field) && HasVolume(h, q.day) && q.day == d;
      var v :| v in h && v.field == Volume && v.day == d;
      assert q in seen && v in seen;
      assert DayTells(seen, d, grouped[d]);
    }
  }

  /** The selection: it fails with the number of paired days when they are too few, and otherwise returns
      the one history of the candidates. */
  method OrderedHistoricalEvidence(evidence: seq<Quote>, minimum: nat) returns (r: Result<seq<Quote>, nat>)
    requires UniqueIds(CandidatesOf(evidence))
    ensures exists h :: IsHistory(CandidatesOf(evidence), h)
    ensures forall h :: IsHistory(CandidatesOf(evidence), h) ==>
              r == if |PairedDays(h)| < minimum then Err(|PairedDays(h)|) else Ok(h)
  {
    hide UniqueIds, IsHistory, Grouped, Sorted, IsCandidate, PairedDays;
    var candidates := Sort(Filter(evidence));
    ghost var seen := CandidatesOf(evidence);
    assert seen == set q | q in candidates;
    SortSorts(Filter(evidence), seen);
    var grouped := GroupByDay(candidates);
    var h := ListDays(seen, grouped);
    FoldCountsPairs(seen, grouped, h);
    var paired := |FullDays(grouped)|;
    r := if paired < minimum then Err(paired) else Ok(h);
    forall other | IsHistory(seen, other) ensures other == h {
      HistoryIsUnique(seen, h, other);
    }
  }

  function Filter(evidence: seq<Quote>): (qs: seq<Quote>)
    ensures forall q :: q in qs <==> q in evidence && IsCandidate(q)
  {
    if evidence == [] then []
    else
      assert evidence == evidence[..|evidence| - 1] + [evidence[|evidence| - 1]];
      Filter(evidence[..|evidence| - 1])
      + if IsCandidate(evidence[|evidence| - 1]) then [evidence[|evidence| - 1]] else []
  }

  /** The caller's own count of the days that have both, made from the returned history alone. */
  method AvailableDays(history: seq<Quote>) returns (available: nat)
    requires forall q :: q in history ==> q.field != OtherField
    ensures available == |PairedDays(history)|
  {
    var priced, traded: set<nat> := {}, {};
    for i := 0 to |history|
      invariant forall d: nat ::
                  d in priced <==> exists j :: 0 <= j < i && IsPriceField(history[j].field) && history[j].day == d
      invariant forall d: nat ::
                  d in traded <==> exists j :: 0 <= j < i && history[j].field == Volume && history[j].day == d
    {
      assert history[i] in history;
      if history[i].field == Volume {
        traded := traded + {history[i].day};
      } else {
        priced := priced + {history[i].day};
      }
    }
    forall d: nat ensures d in priced * traded <==> d in PairedDays(history) {
      if d in priced && d in traded {
        var j :| 0 <= j < |history| && IsPriceField(history[j].field) && history[j].day == d;
        var k :| 0 <= k < |history| && history[k].field == Volume && history[k].day == d;
        assert history[j] in history && history[k] in history;
        assert HasVolume(history, d);
      }
      if d in PairedDays(history) {
        var q :| q in history && IsPriceField(q.field) && HasVolume(history, q.day) && q.day == d;
        var v :| v in history && v.field == Volume && v.day == d;
      }
    }
    assert priced * traded == PairedDays(history);
    available := |priced * traded|;
  }

  /** Evidence outside the historical market context, or of another field, does not matter. */
  lemma OtherEvidenceDoesNotMatter(evidence: seq<Quote>, q: Quote, h: seq<Quote>)
    requires !q.market || q.field == OtherField
    ensures IsHistory(CandidatesOf(evidence + [q]), h) <==> IsHistory(CandidatesOf(evidence), h)
  {
    assert CandidatesOf(evidence + [q]) == CandidatesOf(evidence);
  }

  /** Prices and volumes of that context do: each is a candidate. */
  lemma MarketEvidenceIsCandidate(evidence: seq<Quote>, q: Quote)
    requires q in evidence && q.market && q.field in {AdjustedClose, Close, Volume}
    ensures q in CandidatesOf(evidence)
  {
  }

  /** The order of the evidence does not matter: the same records have the same histories. */
  lemma OrderDoesNotMatter(x: seq<Quote>, y: seq<Quote>, h: seq<Quote>)
    requires multiset(x) == multiset(y)
    ensures IsHistory(CandidatesOf(x), h) <==> IsHistory(CandidatesOf(y), h)
  {
    assert forall q :: q in x <==> q in multiset(x);
    assert forall q :: q in y <==> q in multiset(y);
    assert CandidatesOf(x) == CandidatesOf(y);
  }
}
