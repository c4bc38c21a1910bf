/** Swapping two tabs with two `tab.move` requests. The insert index of a move counts positions in the
list before the tab is taken out. */
module TabSwap {
  import opened Wrappers

  datatype TabId = TabId(text: string)

  datatype WorkspaceId = WorkspaceId(text: string)

  // ----- reading a tab list -----

  /** One row of a response: what the `tab_id`, `workspace_id` and `number` members hold, if they hold
      a string, a string and an unsigned number. */
  datatype Row = NotAnObject | Row(tabId: Option<string>, workspaceId: Option<string>, number: Option<nat>)

  datatype Listing = Malformed | Listing(kind: Option<string>, tabs: Option<seq<Row>>)

  datatype OrderedTab = OrderedTab(id: TabId, workspace: WorkspaceId, number: nat, position: nat)

  predicate IsTab(row: Row) {
    && row.Row?
    && row.tabId.Some? && row.tabId.value != ""
    && row.workspaceId.Some? && row.workspaceId.value != ""
    && row.number.Some?
  }

  predicate SameNumber(a: Row, b: Row)
    requires IsTab(a) && IsTab(b)
  {
    a.workspaceId == b.workspaceId && a.number == b.number
  }

  predicate Readable(rows: seq<Row>) {
    && (forall i | 0 <= i < |rows| :: IsTab(rows[i]))
    && (forall i, j | 0 <= i < j < |rows| :: !SameNumber(rows[i], rows[j]))
  }

  predicate IsTabListing(listing: Listing) {
    && listing.Listing?
    && (listing.kind == Some("tab_list") || listing.kind == Some("tab_moved"))
    && listing.tabs.Some? && Readable(listing.tabs.value)
  }

  function TabAt(row: Row, position: nat): OrderedTab
    requires IsTab(row)
  {
    OrderedTab(TabId(row.tabId.value), WorkspaceId(row.workspaceId.value), row.number.value, position)
  }

  function Ordered(rows: seq<Row>): (tabs: seq<OrderedTab>)
    requires Readable(rows)
    ensures |tabs| == |rows|
    ensures forall i | 0 <= i < |rows| :: tabs[i] == TabAt(rows[i], i)
  {
    seq(|rows|, i requires 0 <= i < |rows| => TabAt(rows[i], i))
  }

  /** Reads the rows in list order; rejects a malformed row or a number repeated in its workspace. */
  method TabList(listing: Listing) returns (tabs: Option<seq<OrderedTab>>)
    ensures tabs.Some? <==> IsTabListing(listing)
    ensures tabs.Some? ==> tabs.value == Ordered(listing.tabs.value)
  {
    if listing.Malformed? || (listing.kind != Some("tab_list") && listing.kind != Some("tab_moved"))
        || listing.tabs.None? {
      return None;
    }
    var rows := listing.tabs.value;
    var ordered: seq<OrderedTab> := [];
    for position := 0 to |rows|
      invariant |ordered| == position && Readable(rows[..position])
      invariant forall k | 0 <= k < position :: ordered[k] == TabAt(rows[k], k)
    {
      var row := rows[position];
      if row.NotAnObject? || row.tabId.None? || row.tabId.value == ""
         || row.workspaceId.None? || row.workspaceId.value == "" || row.number.None?
      {
        return None;
      }
      assert IsTab(row);
      var existing := 0;
      while existing < |ordered|
        invariant 0 <= existing <= |ordered|
        invariant forall k | 0 <= k < existing :: !SameNumber(rows[k], row)
      {
        if ordered[existing].workspace == WorkspaceId(row.workspaceId.value)
            && ordered[existing].number == row.number.value {
          assert SameNumber(rows[existing], rows[position]);
          return None;
        }
        existing := existing + 1;
      }
      ordered := ordered + [TabAt(row, position)];
    }
    assert rows[..|rows|] == rows;
    assert ordered == Ordered(rows);
    return Some(ordered);
  }

  function ReadTabs(listing: Listing): Option<seq<OrderedTab>> {
    if IsTabListing(listing) then Some(Ordered(listing.tabs.value)) else None
  }

  // ----- the swap -----

  datatype Request = ListTabs(workspace: WorkspaceId) | MoveTab(tab: TabId, insertIndex: nat)

  /** `Lost` is a transport failure whose request may have reached the host. */
  datatype Reply = Success(listing: Listing) | Rejected | Failed | Lost

  datatype Tab = Tab(id: TabId, number: nat)

  /** A host that gives any replies it likes, or one that keeps an ordered list of tabs and honours
      insert indices. A run sends each request once, so a script stands for every way a host can act. */
  datatype Host = Scripted(replies: seq<Reply>) | Honouring(tabs: seq<Tab>, workspace: WorkspaceId)

  function ReplyTo(host: Host, requests: seq<Request>): Reply
    requires requests != []
  {
    match host
    case Scripted(replies) => if |requests| <= |replies| then replies[|requests| - 1] else Failed
    case Honouring(tabs, workspace) =>
      Success(Shown(TabsAfter(tabs, requests), workspace,
                    if requests[|requests| - 1].MoveTab? then "tab_moved" else "tab_list"))
  }

  datatype SwapError = Known | Unknown

  datatype Outcome = Swapped | Unswapped(error: SwapError)

  /** The outcome, and every request that was sent. */
  datatype Swap = Swap(outcome: Outcome, requests: seq<Request>)

  /** The first tab with this ID in the workspace. */
  function TabById(tabs: seq<OrderedTab>, id: TabId, workspace: WorkspaceId): (found: Option<OrderedTab>)
    ensures found.Some? ==> found.value in tabs && found.value.id == id && found.value.workspace == workspace
    ensures found.None? ==> forall t <- tabs :: !(t.id == id && t.workspace == workspace)
  {
    if tabs == [] then None
    else if tabs[0].id == id && tabs[0].workspace == workspace then Some(tabs[0])
    else TabById(tabs[1..], id, workspace)
  }

  /** The first tab with this public number in the workspace. */
  function TabByNumber(tabs: seq<OrderedTab>, number: nat, workspace: WorkspaceId): (found: Option<OrderedTab>)
    ensures found.Some? ==> found.value in tabs && found.value.number == number && found.value.workspace == workspace
    ensures found.None? ==> forall t <- tabs :: !(t.number == number && t.workspace == workspace)
  {
    if tabs == [] then None
    else if tabs[0].number == number && tabs[0].workspace == workspace then Some(tabs[0])
    else TabByNumber(tabs[1..], number, workspace)
  }

  /** The tabs a reply shows, or how the request failed. */
  function Answer(host: Host, requests: seq<Request>): Result<seq<OrderedTab>, SwapError>
    requires requests != []
  {
    match ReplyTo(host, requests)
    case Success(listing) => if ReadTabs(listing).Some? then Ok(ReadTabs(listing).value) else Err(Known)
    case Rejected => Err(Known)
    case Failed => Err(Known)
    case Lost => if requests[|requests| - 1].MoveTab? then Err(Unknown) else Err(Known)
  }

  /** Where to insert a tab now at `from` so that it ends up at `to`. */
  function InsertIndex(from: nat, to: nat): nat {
    if from < to then to + 1 else to
  }

  function PerformTabSwap(host: Host, workspace: WorkspaceId, sourceTab: TabId, targetNumber: nat): Swap {
    var asked := [ListTabs(workspace)];
    var initial := Answer(host, asked);
    if initial.Err? then Swap(Unswapped(initial.error), asked)
    else
      var source := TabById(initial.value, sourceTab, workspace);
      var target := TabByNumber(initial.value, targetNumber, workspace);
      if source.None? || target.None? then Swap(Unswapped(Known), asked)
      else if source.value.id == target.value.id then Swap(Swapped, asked)
      else MoveBoth(host, workspace, source.value, target.value)
  }

  function AskThenMove(workspace: WorkspaceId, tab: TabId, insertIndex: nat): seq<Request> {
    [ListTabs(workspace), MoveTab(tab, insertIndex)]
  }

  /** The insert index of the second move, once the first has been answered. */
  function NextInsert(answer: Result<seq<OrderedTab>, SwapError>, workspace: WorkspaceId, source: OrderedTab,
                      target: OrderedTab): Result<nat, SwapError>
  {
    if answer.Err? then Err(answer.error)
    else
      var targetNow := TabById(answer.value, target.id, workspace);
      var sourceNow := TabById(answer.value, source.id, workspace);
      if targetNow.None? || targetNow.value.position != source.position || sourceNow.None? then Err(Known)
      else Ok(InsertIndex(sourceNow.value.position, target.position))
  }

  /** The list shows each of the two tabs at the position the other started from. */
  predicate ShowsExchange(shown: seq<OrderedTab>, workspace: WorkspaceId, source: OrderedTab, target: OrderedTab) {
    var sourceLast := TabById(shown, source.id, workspace);
    var targetLast := TabById(shown, target.id, workspace);
    && sourceLast.Some? && sourceLast.value.position == target.position
    && targetLast.Some? && targetLast.value.position == source.position
  }

  /** What the swap reports once the second move has been answered. */
  function Conclusion(answer: Result<seq<OrderedTab>, SwapError>, workspace: WorkspaceId, source: OrderedTab,
                      target: OrderedTab): Outcome
  {
    if answer.Err? then Unswapped(answer.error)
    else if ShowsExchange(answer.value, workspace, source, target) then Swapped
    else Unswapped(Known)
  }

  function MoveBoth(host: Host, workspace: WorkspaceId, source: OrderedTab, target: OrderedTab): Swap {
    var once := AskThenMove(workspace, target.id, InsertIndex(target.position, source.position));
    var next := NextInsert(Answer(host, once), workspace, source, target);
    if next.Err? then Swap(Unswapped(next.error), once)
    else
      var twice := once + [MoveTab(source.id, next.value)];
      Swap(Conclusion(Answer(host, twice), workspace, source, target), twice)
  }

  /** An answer is an unknown outcome exactly when it is a move whose reply was lost. */
  lemma {:induction false} UnknownMeansLost(host: Host, requests: seq<Request>)
    requires requests != []
    ensures Answer(host, requests) == Err(Unknown)
            <==> requests[|requests| - 1].MoveTab? && ReplyTo(host, requests).Lost?
  {
  }

  lemma {:induction false} MovesAnyHost(host: Host, workspace: WorkspaceId, source: OrderedTab, target: OrderedTab,
      swap: Swap)
    requires swap == MoveBoth(host, workspace, source, target)
    ensures 2 <= |swap.requests| <= 3 && swap.requests[0] == ListTabs(workspace)
    ensures forall i | 1 <= i < |swap.requests| :: swap.requests[i].MoveTab?
    ensures swap.outcome == Unswapped(Unknown) <==> ReplyTo(host, swap.requests).Lost?
    ensures swap.outcome.Swapped? ==>
              && |swap.requests| == 3 && Answer(host, swap.requests).Ok?
              && ShowsExchange(Answer(host, swap.requests).value, workspace, source, target)
  {
    UnknownMeansLost(host, swap.requests);
  }

  /** Whatever the host does: at most two moves are sent, after one list; a swap that reports success has
      seen the two tabs at each other's positions in the last list, or found that they are one tab; and
      an unknown outcome is reported exactly when the last request sent was a move that may have run. */
  lemma {:induction false} AnyHost(host: Host, workspace: WorkspaceId, sourceTab: TabId, targetNumber: nat, swap: Swap)
    requires swap == PerformTabSwap(host, workspace, sourceTab, targetNumber)
    ensures 1 <= |swap.requests| <= 3 && swap.requests[0] == ListTabs(workspace)
    ensures forall i | 1 <= i < |swap.requests| :: swap.requests[i].MoveTab?
    ensures swap.outcome == Unswapped(Unknown) <==> |swap.requests| > 1 && ReplyTo(host, swap.requests).Lost?
    ensures swap.outcome.Swapped? ==>
              && Answer(host, [ListTabs(workspace)]).Ok?
              && var initial := Answer(host, [ListTabs(workspace)]).value;
                 var source := TabById(initial, sourceTab, workspace);
                 var target := TabByNumber(initial, targetNumber, workspace);
              && source.Some? && target.Some?
              && if |swap.requests| == 1 then target.value.id == sourceTab
                 else
                   && |swap.requests| == 3 && Answer(host, swap.requests).Ok?
                   && ShowsExchange(Answer(host, swap.requests).value, workspace, source.value, target.value)
  {
    var asked := [ListTabs(workspace)];
    UnknownMeansLost(host, asked);
    var initial := Answer(host, asked);
    if initial.Ok? {
      var source := TabById(initial.value, sourceTab, workspace);
      var target := TabByNumber(initial.value, targetNumber, workspace);
      if source.Some? && target.Some? && source.value.id != target.value.id {
        MovesAnyHost(host, workspace, source.value, target.value, swap);
      }
    }
  }

  // ----- a host that honours the insert index -----

  function IndexOf(tabs: seq<Tab>, id: TabId): (i: nat)
    ensures i <= |tabs|
    ensures i < |tabs| ==> tabs[i].id == id
    ensures forall k | 0 <= k < i :: tabs[k].id != id
  {
    if tabs == [] || tabs[0].id == id then 0 else IndexOf(tabs[1..], id) + 1
  }

  /** Takes the tab at `from` out and puts it before the tab that stood at `insert`. */
  function Relocated<T>(tabs: seq<T>, from: nat, insert: nat): seq<T>
    requires from < |tabs| && insert <= |tabs|
  {
    if insert <= from
    then tabs[..insert] + [tabs[from]] + tabs[insert..from] + tabs[from + 1..]
    else tabs[..from] + tabs[from + 1..insert] + [tabs[from]] + tabs[insert..]
  }

  function AfterMove(tabs: seq<Tab>, r: Request): seq<Tab>
    requires r.MoveTab?
  {
    var from := IndexOf(tabs, r.tab);
    if from < |tabs| && r.insertIndex <= |tabs| then Relocated(tabs, from, r.insertIndex) else tabs
  }

  /** The host's tabs once it has carried out the requests. */
  function TabsAfter(tabs: seq<Tab>, requests: seq<Request>): seq<Tab> {
    if requests == [] then tabs
    else
      var before := TabsAfter(tabs, requests[..|requests| - 1]);
      var last := requests[|requests| - 1];
      if last.MoveTab? then AfterMove(before, last) else before
  }

  function RowOf(tab: Tab, workspace: WorkspaceId): Row {
    Row(Some(tab.id.text), Some(workspace.text), Some(tab.number))
  }

  function RowsOf(tabs: seq<Tab>, workspace: WorkspaceId): (rows: seq<Row>)
    ensures |rows| == |tabs|
    ensures forall i | 0 <= i < |tabs| :: rows[i] == RowOf(tabs[i], workspace)
  {
    seq(|tabs|, i requires 0 <= i < |tabs| => RowOf(tabs[i], workspace))
  }

  function Shown(tabs: seq<Tab>, workspace: WorkspaceId, kind: string): Listing {
    Listing(Some(kind), Some(RowsOf(tabs, workspace)))
  }

  predicate Distinct(tabs: seq<Tab>) {
    && (forall i | 0 <= i < |tabs| :: tabs[i].id.text != "")
    && (forall i, j | 0 <= i < j < |tabs| :: tabs[i].id != tabs[j].id && tabs[i].number != tabs[j].number)
  }

  function Exchanged<T>(tabs: seq<T>, i: nat, j: nat): seq<T>
    requires i < |tabs| && j < |tabs|
  {
    tabs[i := tabs[j]][j := tabs[i]]
  }

  /** One move carries a tab to the position asked for, and the tabs between shift by one. */
  lemma {:induction false} MoveLands<T>(tabs: seq<T>, from: nat, to: nat)
    requires from < |tabs| && to < |tabs|
    ensures var moved := Relocated(tabs, from, InsertIndex(from, to));
            && |moved| == |tabs| && moved[to] == tabs[from]
            && forall k | 0 <= k < |tabs| && k != to ::
                 moved[k] == tabs[if from <= k < to then k + 1 else if to < k <= from then k - 1 else k]
  {
  }

  /** Where the source stands once the target has taken its place. */
  function SourceNow(i: nat, j: nat): nat
    requires i != j
  {
    if j < i then i - 1 else i + 1
  }

  /** Two moves with the insert indices of the swap exchange exactly two tabs. */
  lemma {:induction false} TwoMovesExchange<T>(tabs: seq<T>, i: nat, j: nat)
    requires i < |tabs| && j < |tabs| && i != j
    ensures Relocated(tabs, j, InsertIndex(j, i))[SourceNow(i, j)] == tabs[i]
    ensures Relocated(Relocated(tabs, j, InsertIndex(j, i)), SourceNow(i, j), InsertIndex(SourceNow(i, j), j))
            == Exchanged(tabs, i, j)
  {
    MoveLands(tabs, j, i);
    MoveLands(Relocated(tabs, j, InsertIndex(j, i)), SourceNow(i, j), j);
  }

  function InOrder(tabs: seq<Tab>, workspace: WorkspaceId): (read: seq<OrderedTab>)
    ensures |read| == |tabs|
    ensures forall i | 0 <= i < |tabs| :: read[i] == OrderedTab(tabs[i].id, workspace, tabs[i].number, i)
  {
    seq(|tabs|, i requires 0 <= i < |tabs| => OrderedTab(tabs[i].id, workspace, tabs[i].number, i))
  }

  /** What the honouring host shows is read back as its tabs, in order. */
  lemma {:induction false} ShownIsRead(tabs: seq<Tab>, workspace: WorkspaceId, requests: seq<Request>)
    requires Distinct(TabsAfter(tabs, requests)) && workspace.text != "" && requests != []
    ensures Answer(Honouring(tabs, workspace), requests) == Ok(InOrder(TabsAfter(tabs, requests), workspace))
  {
    var now := TabsAfter(tabs, requests);
    var listing := Shown(now, workspace, if requests[|requests| - 1].MoveTab? then "tab_moved" else "tab_list");
    assert IsTabListing(listing);
    assert Ordered(listing.tabs.value) == InOrder(now, workspace);
  }

  lemma {:induction false} FoundAt(tabs: seq<Tab>, workspace: WorkspaceId, k: nat)
    requires Distinct(tabs) && k < |tabs|
    ensures TabById(InOrder(tabs, workspace), tabs[k].id,
        workspace) == Some(OrderedTab(tabs[k].id, workspace, tabs[k].number, k))
    ensures TabByNumber(InOrder(tabs, workspace), tabs[k].number, workspace)
            == Some(OrderedTab(tabs[k].id, workspace, tabs[k].number, k))
    ensures IndexOf(tabs, tabs[k].id) == k
  {
    assert InOrder(tabs, workspace)[k] in InOrder(tabs, workspace);
  }

  /** Moving a tab by the rule of the swap keeps the tabs distinct. */
  lemma {:induction false} MoveKeepsDistinct(tabs: seq<Tab>, from: nat, to: nat)
    requires Distinct(tabs) && from < |tabs| && to < |tabs|
    ensures Distinct(Relocated(tabs, from, InsertIndex(from, to)))
  {
    MoveLands(tabs, from, to);
  }

  /** The host's tabs after one more move of the tab at `from` to `to`. */
  lemma {:induction false} OneMove(tabs: seq<Tab>, requests: seq<Request>, from: nat, to: nat)
    requires var now := TabsAfter(tabs, requests); Distinct(now) && from < |now| && to < |now|
    ensures var now := TabsAfter(tabs, requests);
            && TabsAfter(tabs, requests + [MoveTab(now[from].id, InsertIndex(from, to))])
               == Relocated(now, from, InsertIndex(from, to))
            && Distinct(Relocated(now, from, InsertIndex(from, to)))
  {
    var now := TabsAfter(tabs, requests);
    var more := requests + [MoveTab(now[from].id, InsertIndex(from, to))];
    assert more[..|more| - 1] == requests;
    FoundAt(now, WorkspaceId(""), from);
    MoveKeepsDistinct(now, from, to);
  }

  /** After the first move the target stands where the source stood, and the source one place off. */
  lemma {:induction false} FirstMove(tabs: seq<Tab>, workspace: WorkspaceId, i: nat, j: nat, once: seq<Request>)
    requires Distinct(tabs) && i < |tabs| && j < |tabs| && i != j
    requires once == AskThenMove(workspace, tabs[j].id, InsertIndex(j, i))
    ensures TabsAfter(tabs, once) == Relocated(tabs, j, InsertIndex(j, i))
    ensures Distinct(TabsAfter(tabs, once))
  {
    var asked := [ListTabs(workspace)];
    assert asked[..0] == [];
    OneMove(tabs, asked, j, i);
    assert once == asked + [MoveTab(tabs[j].id, InsertIndex(j, i))];
  }

  /** The second move completes the exchange. */
  lemma {:induction false} SecondMove(tabs: seq<Tab>, workspace: WorkspaceId, i: nat, j: nat, once: seq<Request>,
      twice: seq<Request>)
    requires Distinct(tabs) && i < |tabs| && j < |tabs| && i != j
    requires TabsAfter(tabs, once) == Relocated(tabs, j, InsertIndex(j, i)) && Distinct(TabsAfter(tabs, once))
    requires twice == once + [MoveTab(tabs[i].id, InsertIndex(SourceNow(i, j), j))]
    ensures TabsAfter(tabs, twice) == Exchanged(tabs, i, j)
    ensures Distinct(Exchanged(tabs, i, j))
  {
    TwoMovesExchange(tabs, i, j);
    OneMove(tabs, once, SourceNow(i, j), j);
  }

  /** Once the host shows the target in the source's place, the second move is asked for. */
  lemma {:induction false} FirstAnswerLeadsOn(now: seq<Tab>, workspace: WorkspaceId, i: nat, j: nat,
      source: OrderedTab, target: OrderedTab)
    requires Distinct(now) && i < |now| && j < |now| && i != j
    requires source.position == i && target.position == j
    requires now[i].id == target.id && now[SourceNow(i, j)].id == source.id
    ensures NextInsert(Ok(InOrder(now, workspace)), workspace, source, target) == Ok(InsertIndex(SourceNow(i, j), j))
  {
    FoundAt(now, workspace, i);
    FoundAt(now, workspace, SourceNow(i, j));
  }

  lemma {:induction false} SecondAnswerConcludes(now: seq<Tab>, workspace: WorkspaceId, i: nat, j: nat,
      source: OrderedTab, target: OrderedTab)
    requires Distinct(now) && i < |now| && j < |now|
    requires source.position == i && target.position == j
    requires now[i].id == target.id && now[j].id == source.id
    ensures Conclusion(Ok(InOrder(now, workspace)), workspace, source, target) == Swapped
  {
    FoundAt(now, workspace, i);
    FoundAt(now, workspace, j);
  }

  lemma {:induction false} TwoMovesSucceed(tabs: seq<Tab>, workspace: WorkspaceId, i: nat, j: nat, source: OrderedTab,
      target: OrderedTab, swap: Swap)
    requires Distinct(tabs) && workspace.text != "" && i < |tabs| && j < |tabs| && i != j
    requires source == OrderedTab(tabs[i].id, workspace, tabs[i].number, i)
    requires target == OrderedTab(tabs[j].id, workspace, tabs[j].number, j)
    requires swap == MoveBoth(Honouring(tabs, workspace), workspace, source, target)
    ensures swap.outcome.Swapped? && TabsAfter(tabs, swap.requests) == Exchanged(tabs, i, j)
  {
    var once := AskThenMove(workspace, target.id, InsertIndex(j, i));
    FirstMove(tabs, workspace, i, j, once);
    ShownIsRead(tabs, workspace, once);
    TwoMovesExchange(tabs, i, j);
    MoveLands(tabs, j, i);
    FirstAnswerLeadsOn(TabsAfter(tabs, once), workspace, i, j, source, target);

    var twice := once + [MoveTab(source.id, InsertIndex(SourceNow(i, j), j))];
    SecondMove(tabs, workspace, i, j, once, twice);
    ShownIsRead(tabs, workspace, twice);
    SecondAnswerConcludes(Exchanged(tabs, i, j), workspace, i, j, source, target);
  }

  /** Asking an honouring host for the swap succeeds and leaves it with `result`. */
  predicate SwapLeads(tabs: seq<Tab>, workspace: WorkspaceId, source: TabId, target: nat, result: seq<Tab>) {
    var swap := PerformTabSwap(Honouring(tabs, workspace), workspace, source, target);
    swap.outcome.Swapped? && TabsAfter(tabs, swap.requests) == result
  }

  /** A host that honours insert indices ends up with exactly the two tabs exchanged, for every list and
      every pair of positions, adjacent and equal ones included. */
  lemma {:induction false} SwapExchanges(tabs: seq<Tab>, workspace: WorkspaceId, i: nat, j: nat)
    requires Distinct(tabs) && workspace.text != "" && i < |tabs| && j < |tabs|
    ensures SwapLeads(tabs, workspace, tabs[i].id, tabs[j].number, Exchanged(tabs, i, j))
  {
    var asked := [ListTabs(workspace)];
    assert TabsAfter(tabs, asked) == tabs by {
      assert asked[..0] == [];
    }
    ShownIsRead(tabs, workspace, asked);
    FoundAt(tabs, workspace, i);
    FoundAt(tabs, workspace, j);
    if i != j {
      var source := OrderedTab(tabs[i].id, workspace, tabs[i].number, i);
      var target := OrderedTab(tabs[j].id, workspace, tabs[j].number, j);
      TwoMovesSucceed(tabs, workspace, i, j, source, target,
          MoveBoth(Honouring(tabs, workspace), workspace, source, target));
    }
  }

  lemma {:induction false} ExchangedBack(tabs: seq<Tab>, i: nat, j: nat)
    requires Distinct(tabs) && i < |tabs| && j < |tabs|
    ensures var swapped := Exchanged(tabs, i, j);
            && Distinct(swapped) && swapped[j] == tabs[i] && swapped[i] == tabs[j] && Exchanged(swapped, j, i) == tabs
  {
  }

  /** Asking for the same swap again, by the same tab and number, puts every tab back. */
  lemma {:induction false} SwapUndoesItself(tabs: seq<Tab>, workspace: WorkspaceId, i: nat, j: nat)
    requires Distinct(tabs) && workspace.text != "" && i < |tabs| && j < |tabs|
    ensures SwapLeads(Exchanged(tabs, i, j), workspace, tabs[i].id, tabs[j].number, tabs)
  {
    ExchangedBack(tabs, i, j);
    SwapExchanges(Exchanged(tabs, i, j), workspace, j, i);
  }

  /** A tab that is not there, or a number that is not there, is refused before anything moves. */
  lemma {:induction false} MissingTabMovesNothing(tabs: seq<Tab>, workspace: WorkspaceId, sourceTab: TabId,
      targetNumber: nat)
    requires Distinct(tabs) && workspace.text != ""
    requires (forall t <- tabs :: t.id != sourceTab) || (forall t <- tabs :: t.number != targetNumber)
    ensures PerformTabSwap(Honouring(tabs, workspace), workspace, sourceTab, targetNumber)
            == Swap(Unswapped(Known), [ListTabs(workspace)])
  {
    var asked := [ListTabs(workspace)];
    assert TabsAfter(tabs, asked) == tabs by {
      assert asked[..0] == [];
    }
    ShownIsRead(tabs, workspace, asked);
  }
}
