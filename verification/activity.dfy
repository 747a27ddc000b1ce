/** Recent activity and next actions on the dashboard. */
module Activity {
  import opened Results
  import opened Ranking
  import opened Dashboard
  import opened Recommendations

  const RECENT := 10

  // Recent activity: the ten latest of two tables, each read with its own limit of ten.

  datatype FollowupRow = FollowupRow(id: Id, client: Id, createdAt: Time)

  datatype ItemRow = ItemRow(id: Id, completedAt: Option<Time>)

  datatype Entry = Contacted(id: Id, client: Id, at: Time) | Finished(id: Id, at: Time)

  predicate LaterRow(a: FollowupRow, b: FollowupRow) {
    a.createdAt > b.createdAt || (a.createdAt == b.createdAt && a.id >= b.id)
  }

  function CompletionTime(a: ItemRow): Time {
    if a.completedAt.Some? then a.completedAt.value else 0
  }

  predicate LaterItem(a: ItemRow, b: ItemRow) {
    CompletionTime(a) > CompletionTime(b) || (CompletionTime(a) == CompletionTime(b) && a.id >= b.id)
  }

  predicate LaterEntry(a: Entry, b: Entry) {
    a.at >= b.at
  }

  /** The follow-up query, before its limit. */
  function FollowupRows(table: seq<FollowupRow>): seq<FollowupRow> {
    SortBy(table, LaterRow)
  }

  function IfDated(): ItemRow -> seq<ItemRow> {
    (x: ItemRow) => if x.completedAt.Some? then [x] else []
  }

  function Dated(table: seq<ItemRow>): seq<ItemRow> {
    Gather(table, IfDated())
  }

  lemma OnlyDatedRows(table: seq<ItemRow>)
    ensures forall x :: x in Dated(table) <==> x in table && x.completedAt.Some?
  {
    GatherMembers(table, IfDated());
  }

  /** The query for completed items, before its limit. */
  function ItemRows(table: seq<ItemRow>): seq<ItemRow> {
    SortBy(Dated(table), LaterItem)
  }

  /** The follow-up query lists every row of its table once, the latest first and ties by the larger id. */
  lemma FollowupsAreOrdered(table: seq<FollowupRow>)
    ensures multiset(FollowupRows(table)) == multiset(table)
    ensures forall i, j :: 0 <= i < j < |FollowupRows(table)| ==>
      var a, b := FollowupRows(table)[i], FollowupRows(table)[j];
      a.createdAt > b.createdAt || (a.createdAt == b.createdAt && a.id >= b.id)
  {
    SortKeeps(table, LaterRow);
  }

  /** The query for completed items does the same with the dated ones. */
  lemma ItemsAreOrdered(table: seq<ItemRow>)
    ensures multiset(ItemRows(table)) == multiset(Dated(table))
    ensures forall x :: x in ItemRows(table) ==> x.completedAt.Some?
    ensures forall i, j :: 0 <= i < j < |ItemRows(table)| ==>
      var a, b := ItemRows(table)[i], ItemRows(table)[j];
      a.completedAt.Some? && b.completedAt.Some? ==>
        a.completedAt.value > b.completedAt.value || (a.completedAt == b.completedAt && a.id >= b.id)
  {
    OnlyDatedRows(table);
    SortKeeps(Dated(table), LaterItem);
  }

  function FollowupEntries(rows: seq<FollowupRow>): (r: seq<Entry>)
    ensures |r| == |rows|
    ensures forall i :: 0 <= i < |r| ==> r[i] == Contacted(rows[i].id, rows[i].client, rows[i].createdAt)
  {
    seq(|rows|, i requires 0 <= i < |rows| => Contacted(rows[i].id, rows[i].client, rows[i].createdAt))
  }

  function ItemEntries(rows: seq<ItemRow>): seq<Entry> {
    if rows == [] then []
    else
      var last := rows[|rows| - 1];
      ItemEntries(rows[..|rows| - 1]) +
      if last.completedAt.Some? then [Finished(last.id, last.completedAt.value)] else []
  }

  function Recent(records: seq<FollowupRow>, completed: seq<ItemRow>): seq<Entry> {
    Take(RECENT, SortBy(FollowupEntries(records) + ItemEntries(completed), LaterEntry))
  }

  method BuildRecentActivity(records: seq<FollowupRow>, completed: seq<ItemRow>) returns (shown: seq<Entry>)
    ensures shown == Recent(records, completed)
  {
    var activity := FollowupEntries(records);
    var i := 0;
    while i < |completed|
      invariant 0 <= i <= |completed|
      invariant activity == FollowupEntries(records) + ItemEntries(completed[..i])
    {
      var row := completed[i];
      assert completed[..i + 1][..i] == completed[..i];
      i := i + 1;
      if row.completedAt.None? {
        continue;
      }
      activity := activity + [Finished(row.id, row.completedAt.value)];
    }
    assert completed[..i] == completed;
    shown := Take(RECENT, SortBy(activity, LaterEntry));
  }

  lemma {:induction false} ItemEntriesAre(rows: seq<ItemRow>)
    requires forall x :: x in rows ==> x.completedAt.Some?
    ensures |ItemEntries(rows)| == |rows|
    ensures forall i :: 0 <= i < |rows| ==> ItemEntries(rows)[i] == Finished(rows[i].id, rows[i].completedAt.value)
  {
    if rows != [] {
      ItemEntriesAre(rows[..|rows| - 1]);
    }
  }

  lemma FollowupsInOrder(table: seq<FollowupRow>)
    ensures Ordered(FollowupEntries(FollowupRows(table)), LaterEntry)
    ensures FollowupEntries(Take(RECENT, FollowupRows(table))) == Take(RECENT, FollowupEntries(FollowupRows(table)))
    ensures forall x :: x in FollowupRows(table) <==> x in table
  {
    SortKeeps(table, LaterRow);
  }

  lemma EntriesInOrder(rows: seq<ItemRow>)
    requires forall x :: x in rows ==> x.completedAt.Some?
    requires Ordered(rows, LaterItem)
    ensures Ordered(ItemEntries(rows), LaterEntry)
    ensures ItemEntries(Take(RECENT, rows)) == Take(RECENT, ItemEntries(rows))
  {
    ItemEntriesAre(rows);
    ItemEntriesAre(Take(RECENT, rows));
  }

  lemma ItemsInOrder(table: seq<ItemRow>)
    ensures Ordered(ItemEntries(ItemRows(table)), LaterEntry)
    ensures ItemEntries(Take(RECENT, ItemRows(table))) == Take(RECENT, ItemEntries(ItemRows(table)))
    ensures forall x :: x in ItemRows(table) <==> x in table && x.completedAt.Some?
  {
    OnlyDatedRows(table);
    SortKeeps(Dated(table), LaterItem);
    EntriesInOrder(ItemRows(table));
  }

  /** Cutting each query to ten rows changes nothing in the ten entries shown. */
  lemma TenOfEachSuffice(followups: seq<FollowupRow>, items: seq<ItemRow>)
    ensures Recent(Take(RECENT, FollowupRows(followups)), Take(RECENT, ItemRows(items)))
         == Recent(FollowupRows(followups), ItemRows(items))
  {
    FollowupsInOrder(followups);
    ItemsInOrder(items);
    CutsSuffice(RECENT, FollowupEntries(FollowupRows(followups)), ItemEntries(ItemRows(items)), LaterEntry);
  }

  ghost predicate Happened(e: Entry, followups: seq<FollowupRow>, items: seq<ItemRow>) {
    match e
    case Contacted(id, client, at) => FollowupRow(id, client, at) in followups
    case Finished(id, at) => ItemRow(id, Some(at)) in items
  }

  lemma EntriesHappened(followups: seq<FollowupRow>, items: seq<ItemRow>, e: Entry)
    ensures e in FollowupEntries(FollowupRows(followups)) + ItemEntries(ItemRows(items)) <==> Happened(e, followups, items)
  {
    FollowupsInOrder(followups);
    ItemsInOrder(items);
    var f, g := FollowupRows(followups), ItemRows(items);
    ItemEntriesAre(g);
    match e
    case Contacted(id, client, at) =>
      if FollowupRow(id, client, at) in f {
        var i :| 0 <= i < |f| && f[i] == FollowupRow(id, client, at);
        assert FollowupEntries(f)[i] == e;
      }
    case Finished(id, at) =>
      if ItemRow(id, Some(at)) in g {
        var i :| 0 <= i < |g| && g[i] == ItemRow(id, Some(at));
        assert ItemEntries(g)[i] == e;
      }
  }

  /** What is shown are the ten latest happenings of both tables together, the latest first. */
  lemma TheLatestAreShown(followups: seq<FollowupRow>, items: seq<ItemRow>)
    ensures var shown := Recent(Take(RECENT, FollowupRows(followups)), Take(RECENT, ItemRows(items)));
      && |shown| == (if |followups| + |Dated(items)| < 10 then |followups| + |Dated(items)| else 10)
      && (forall i, j :: 0 <= i < j < |shown| ==> shown[i].at >= shown[j].at)
      && (forall e :: e in shown ==> Happened(e, followups, items))
      && (forall e, i :: Happened(e, followups, items) && e !in shown && 0 <= i < |shown| ==> shown[i].at >= e.at)
  {
    TenOfEachSuffice(followups, items);
    HowMany(followups, items);
    RecentIsLatest(FollowupRows(followups), ItemRows(items));
    forall e
      ensures e in FollowupEntries(FollowupRows(followups)) + ItemEntries(ItemRows(items)) <==> Happened(e, followups, items)
    {
      EntriesHappened(followups, items, e);
    }
  }

  lemma HowMany(followups: seq<FollowupRow>, items: seq<ItemRow>)
    ensures |FollowupEntries(FollowupRows(followups)) + ItemEntries(ItemRows(items))| == |followups| + |Dated(items)|
  {
    SortKeeps(followups, LaterRow);
    OnlyDatedRows(items);
    SortKeeps(Dated(items), LaterItem);
    ItemEntriesAre(ItemRows(items));
  }

  lemma RecentIsLatest(records: seq<FollowupRow>, completed: seq<ItemRow>)
    ensures var all, shown := FollowupEntries(records) + ItemEntries(completed), Recent(records, completed);
      && |shown| == (if |all| < 10 then |all| else 10)
      && (forall i, j :: 0 <= i < j < |shown| ==> shown[i].at >= shown[j].at)
      && (forall e :: e in shown ==> e in all)
      && (forall e, i :: e in all && e !in shown && 0 <= i < |shown| ==> shown[i].at >= e.at)
  {
    var all := FollowupEntries(records) + ItemEntries(completed);
    SortKeeps(all, LaterEntry);
    FirstOnesLead(RECENT, all, LaterEntry);
  }

  // Next actions: open action items with the same normalised task, client, owner and due text share one line.

  datatype Line = Line(task: string, client: Option<Id>, owner: string, due: string)

  datatype OpenItem = OpenItem(id: Id, line: Line)

  function OnLine(line: Line): OpenItem -> seq<OpenItem> {
    (x: OpenItem) => if x.line == line then [x] else []
  }

  function OfLine(items: seq<OpenItem>, line: Line): seq<OpenItem> {
    Gather(items, OnLine(line))
  }

  /** The lines in the order of their first item. */
  function Lines(items: seq<OpenItem>): seq<Line> {
    if items == [] then []
    else
      var n := |items| - 1;
      var before := Lines(items[..n]);
      before + if items[n].line in before then [] else [items[n].line]
  }

  lemma NextItem(items: seq<OpenItem>, n: nat)
    requires n < |items|
    ensures Lines(items[..n + 1]) == Lines(items[..n]) + if items[n].line in Lines(items[..n]) then [] else [items[n].line]
    ensures forall l :: OfLine(items[..n + 1], l) == OfLine(items[..n], l) + if items[n].line == l then [items[n]] else []
  {
    LinesNext(items, n);
    forall l ensures OfLine(items[..n + 1], l) == OfLine(items[..n], l) + if items[n].line == l then [items[n]] else [] {
      GatherNext(items, n, OnLine(l));
    }
  }

  method GroupActions(items: seq<OpenItem>) returns (lines: seq<Line>, groups: map<Line, seq<OpenItem>>)
    ensures lines == Lines(items)
    ensures forall l :: l in groups <==> l in lines
    ensures forall l :: l in groups ==> groups[l] == OfLine(items, l)
  {
    lines, groups := [], map[];
    var i := 0;
    while i < |items|
      invariant 0 <= i <= |items|
      invariant lines == Lines(items[..i])
      invariant forall l :: l in groups <==> l in lines
      invariant forall l :: l !in groups ==> OfLine(items[..i], l) == []
      invariant forall l :: l in groups ==> groups[l] == OfLine(items[..i], l)
    {
      var item := items[i];
      NextItem(items, i);
      if item.line !in groups {
        lines := lines + [item.line];
        groups := groups[item.line := []];
      }
      groups := groups[item.line := groups[item.line] + [item]];
      i := i + 1;
    }
    assert items[..i] == items;
  }

  function GroupIn(items: seq<OpenItem>): Line -> seq<OpenItem> {
    (l: Line) => OfLine(items, l)
  }

  function Concatenated(lines: seq<Line>, items: seq<OpenItem>): seq<OpenItem> {
    Gather(lines, GroupIn(items))
  }

  ghost predicate Distinct(lines: seq<Line>) {
    forall i, j :: 0 <= i < j < |lines| ==> lines[i] != lines[j]
  }

  /** Only the group of the new item's line grows, and by that item. */
  lemma {:induction false} OneMoreItem(lines: seq<Line>, items: seq<OpenItem>, n: nat)
    requires Distinct(lines) && n < |items|
    ensures multiset(Concatenated(lines, items[..n + 1])) ==
      multiset(Concatenated(lines, items[..n])) + if items[n].line in lines then multiset{items[n]} else multiset{}
  {
    if lines != [] {
      var before, last := lines[..|lines| - 1], lines[|lines| - 1];
      OneMoreItem(before, items, n);
      GatherNext(items, n, OnLine(last));
      assert lines == before + [last];
    }
  }

  lemma {:induction false} LinesCover(items: seq<OpenItem>)
    ensures forall l :: l in Lines(items) <==> exists p :: 0 <= p < |items| && items[p].line == l
  {
    if items != [] {
      LinesCover(items[..|items| - 1]);
    }
  }

  lemma ItemsOfLine(items: seq<OpenItem>, line: Line)
    ensures forall x :: x in OfLine(items, line) <==> x in items && x.line == line
    ensures OfLine(items, line) == [] <==> line !in Lines(items)
  {
    GatherMembers(items, OnLine(line));
    LinesCover(items);
    if OfLine(items, line) != [] {
      assert OfLine(items, line)[0] in OfLine(items, line);
    }
    if p :| 0 <= p < |items| && items[p].line == line {
      assert items[p] in items && items[p] in OnLine(line)(items[p]);
    }
  }

  lemma {:induction false} LinesAreDistinct(items: seq<OpenItem>)
    ensures Distinct(Lines(items))
  {
    if items != [] {
      LinesAreDistinct(items[..|items| - 1]);
    }
  }

  lemma JoinGroup(lines: seq<Line>, line: Line, items: seq<OpenItem>)
    ensures multiset(Concatenated(lines + [line], items)) == multiset(Concatenated(lines, items)) + multiset(OfLine(items, line))
  {
    GatherOfConcat(lines, [line], GroupIn(items));
    GatherAlone(line, GroupIn(items));
  }

  lemma GroupsGrow(items: seq<OpenItem>, n: nat, lines: seq<Line>)
    requires n < |items| && Distinct(lines)
    requires items[n].line !in lines ==> OfLine(items[..n], items[n].line) == []
    ensures var line, next := items[n].line, items[..n + 1];
      multiset(Concatenated(lines + (if line in lines then [] else [line]), next)) ==
      multiset(Concatenated(lines, items[..n])) + multiset{items[n]}
  {
    var line, next := items[n].line, items[..n + 1];
    OneMoreItem(lines, items, n);
    if line in lines {
      assert lines + [] == lines;
    } else {
      GatherNext(items, n, OnLine(line));
      assert OfLine(next, line) == [items[n]];
      JoinGroup(lines, line, next);
    }
  }

  lemma LinesNext(items: seq<OpenItem>, n: nat)
    requires n < |items|
    ensures Lines(items[..n + 1]) == Lines(items[..n]) + if items[n].line in Lines(items[..n]) then [] else [items[n].line]
  {
    assert items[..n + 1][..n] == items[..n];
  }

  /** Grouping loses and repeats nothing: the groups, one per line, hold every open item exactly once. */
  lemma GroupsPartitionTheItems(items: seq<OpenItem>)
    ensures Distinct(Lines(items))
    ensures multiset(Concatenated(Lines(items), items)) == multiset(items)
  {
    LinesAreDistinct(items);
    GroupsOfPrefix(items, |items|);
    assert items[..|items|] == items;
  }

  lemma {:induction false} GroupsOfPrefix(items: seq<OpenItem>, n: nat)
    requires n <= |items|
    ensures multiset(Concatenated(Lines(items[..n]), items[..n])) == multiset(items[..n])
  {
    if n == 0 {
      assert items[..0] == [];
    } else {
      var m := n - 1;
      GroupsOfPrefix(items, m);
      LinesAreDistinct(items[..m]);
      ItemsOfLine(items[..m], items[m].line);
      GroupsGrow(items, m, Lines(items[..m]));
      LinesNext(items, m);
      OneMoreOf(items, m);
    }
  }

  lemma OneMoreOf(items: seq<OpenItem>, n: nat)
    requires n < |items|
    ensures multiset(items[..n + 1]) == multiset(items[..n]) + multiset{items[n]}
  {
    assert items[..n + 1] == items[..n] + [items[n]];
  }

  /** A line that is new with the last item has no earlier item. */
  lemma NewLineIsNew(items: seq<OpenItem>)
    requires items != [] && items[|items| - 1].line !in Lines(items[..|items| - 1])
    ensures forall q :: 0 <= q < |items| - 1 ==> items[q].line != items[|items| - 1].line
  {
    var before := items[..|items| - 1];
    LinesCover(before);
    forall q | 0 <= q < |before| ensures items[q].line in Lines(before) {
      assert before[q].line == items[q].line;
    }
  }

  /** Lines stand in the order of their first items. */
  lemma {:induction false} LinesByFirstItem(items: seq<OpenItem>, i: nat, j: nat, q: nat)
    requires i < j < |Lines(items)| && q < |items| && items[q].line == Lines(items)[j]
    ensures exists p :: 0 <= p < q && items[p].line == Lines(items)[i]
  {
    var before, last := items[..|items| - 1], items[|items| - 1];
    if j < |Lines(before)| && q < |before| {
      LinesByFirstItem(before, i, j, q);
    } else {
      if last.line !in Lines(before) {
        NewLineIsNew(items);
      }
      LinesCover(before);
      assert q == |before|;
      assert Lines(before)[i] in Lines(before);
      var p :| 0 <= p < |before| && before[p].line == Lines(before)[i];
      assert items[p].line == Lines(items)[i];
    }
  }

  /** The items of a line stand in their own order. */
  lemma LineKeepsOrder(x: seq<OpenItem>, y: seq<OpenItem>, item: OpenItem, line: Line)
    ensures OfLine(x + y, line) == OfLine(x, line) + OfLine(y, line)
    ensures OfLine([item], line) == if item.line == line then [item] else []
  {
    GatherOfConcat(x, y, OnLine(line));
    GatherAlone(item, OnLine(line));
  }

  ghost function Places(items: seq<OpenItem>, n: nat, c: Id): set<int>
    requires n <= |items|
  {
    set i | 0 <= i < n && items[i].line.client == Some(c)
  }

  /** A client's open items are counted once each. */
  lemma {:induction false} CountIsExact(items: seq<OpenItem>, n: nat, c: Id)
    requires n <= |items|
    ensures |OfClient(items[..n], c)| == |Places(items, n, c)|
  {
    if n == 0 {
      assert Places(items, 0, c) == {};
    } else {
      CountIsExact(items, n - 1, c);
      GatherNext(items, n - 1, OfOne(c));
      assert Places(items, n, c) == Places(items, n - 1, c) + if items[n - 1].line.client == Some(c) then {n - 1} else {};
    }
  }

  method CountOpenActions(items: seq<OpenItem>) returns (counts: map<Id, nat>)
    ensures forall c :: Counted(counts, c) == |OfClient(items, c)|
    ensures forall c :: c in counts <==> OfClient(items, c) != []
  {
    counts := map[];
    var i := 0;
    while i < |items|
      invariant 0 <= i <= |items|
      invariant forall c :: Counted(counts, c) == |OfClient(items[..i], c)|
      invariant forall c :: c in counts <==> OfClient(items[..i], c) != []
    {
      var client := items[i].line.client;
      forall c: Id ensures OfClient(items[..i + 1], c) == OfClient(items[..i], c) + if client == Some(c) then [items[i]] else [] {
        GatherNext(items, i, OfOne(c));
      }
      if client.Some? {
        counts := counts[client.value := Counted(counts, client.value) + 1];
      }
      i := i + 1;
    }
    assert items[..i] == items;
  }

  function OfOne(c: Id): OpenItem -> seq<OpenItem> {
    (x: OpenItem) => if x.line.client == Some(c) then [x] else []
  }

  function OfClient(items: seq<OpenItem>, c: Id): seq<OpenItem> {
    Gather(items, OfOne(c))
  }
}
