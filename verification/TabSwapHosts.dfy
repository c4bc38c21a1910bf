/** The tab swap against any host, told from the host's answers: which lists can be read, which moves follow from
which answers, and when success is reported. */
module TabSwapHosts {
  import opened Wrappers
  import opened TabSwap

  // ----- reading a list -----

  /** The row names a tab and a workspace, neither by an empty text, and has a number. */
  predicate NamesTab(row: Row) {
    match row
    case NotAnObject => false
    case Row(Some(tab), Some(workspace), Some(_)) => |tab| > 0 && |workspace| > 0
    case _ => false
  }

  /** A list is read exactly when it is of one of the two kinds, every row names a tab, and no two tabs of one
      workspace have one number; then tab and row agree at every position. */
  lemma {:induction false} ReadExactly(listing: Listing)
    ensures ReadTabs(listing).Some? <==>
              && listing.Listing? && listing.tabs.Some?
              && (listing.kind == Some("tab_list") || listing.kind == Some("tab_moved"))
              && var rows := listing.tabs.value;
              && (forall i | 0 <= i < |rows| :: NamesTab(rows[i]))
              && forall i, j | 0 <= i < |rows| && 0 <= j < |rows| && i != j ::
                   !(rows[i].workspaceId == rows[j].workspaceId && rows[i].number == rows[j].number)
    ensures ReadTabs(listing).Some? ==>
              var tabs, rows := ReadTabs(listing).value, listing.tabs.value;
              && |tabs| == |rows|
              && forall i | 0 <= i < |rows| ::
                   rows[i] == Row(Some(tabs[i].id.text), Some(tabs[i].workspace.text), Some(tabs[i].number))
                   && tabs[i].position == i
  {
    if listing.Listing? && listing.tabs.Some? {
      var rows := listing.tabs.value;
      assert forall i | 0 <= i < |rows| :: NamesTab(rows[i]) <==> IsTab(rows[i]);
    }
  }

  // ----- what an answer shows -----

  /** The first tab with this ID in the workspace stands here. */
  ghost predicate StandsAt(tabs: seq<OrderedTab>, id: TabId, workspace: WorkspaceId, k: nat) {
    && k < |tabs| && tabs[k].id == id && tabs[k].workspace == workspace
    && forall m | 0 <= m < k :: !(tabs[m].id == id && tabs[m].workspace == workspace)
  }

  /** The first tab with this number in the workspace. */
  ghost predicate NumberedAt(tabs: seq<OrderedTab>, number: nat, workspace: WorkspaceId, k: nat) {
    && k < |tabs| && tabs[k].number == number && tabs[k].workspace == workspace
    && forall m | 0 <= m < k :: !(tabs[m].number == number && tabs[m].workspace == workspace)
  }

  lemma {:induction false} FoundById(tabs: seq<OrderedTab>, id: TabId, workspace: WorkspaceId, k: nat)
    ensures StandsAt(tabs, id, workspace, k) ==> TabById(tabs, id, workspace) == Some(tabs[k])
    decreases |tabs|
  {
    if StandsAt(tabs, id, workspace, k) && k > 0 {
      assert !(tabs[0].id == id && tabs[0].workspace == workspace);
      assert StandsAt(tabs[1..], id, workspace, k - 1);
      FoundById(tabs[1..], id, workspace, k - 1);
    }
  }

  lemma {:induction false} PlaceOf(tabs: seq<OrderedTab>, id: TabId, workspace: WorkspaceId) returns (k: nat)
    requires TabById(tabs, id, workspace).Some?
    ensures StandsAt(tabs, id, workspace, k) && TabById(tabs, id, workspace) == Some(tabs[k])
    decreases |tabs|
  {
    if tabs[0].id == id && tabs[0].workspace == workspace {
      k := 0;
    } else {
      k := PlaceOf(tabs[1..], id, workspace);
      k := k + 1;
    }
  }

  lemma {:induction false} FoundByNumber(tabs: seq<OrderedTab>, number: nat, workspace: WorkspaceId, k: nat)
    ensures NumberedAt(tabs, number, workspace, k) ==> TabByNumber(tabs, number, workspace) == Some(tabs[k])
    decreases |tabs|
  {
    if NumberedAt(tabs, number, workspace, k) && k > 0 {
      assert !(tabs[0].number == number && tabs[0].workspace == workspace);
      assert NumberedAt(tabs[1..], number, workspace, k - 1);
      FoundByNumber(tabs[1..], number, workspace, k - 1);
    }
  }

  lemma {:induction false} PlaceOfNumber(tabs: seq<OrderedTab>, number: nat, workspace: WorkspaceId) returns (k: nat)
    requires TabByNumber(tabs, number, workspace).Some?
    ensures NumberedAt(tabs, number, workspace, k) && TabByNumber(tabs, number, workspace) == Some(tabs[k])
    decreases |tabs|
  {
    if tabs[0].number == number && tabs[0].workspace == workspace {
      k := 0;
    } else {
      k := PlaceOfNumber(tabs[1..], number, workspace);
      k := k + 1;
    }
  }

  /** The host answered the last of these requests with a list it can be held to. */
  ghost predicate Shows(host: Host, requests: seq<Request>, tabs: seq<OrderedTab>)
    requires requests != []
  {
    && ReplyTo(host, requests).Success? && ReadTabs(ReplyTo(host, requests).listing) == Some(tabs)
  }

  lemma {:induction false} ShownIsAnswered(host: Host, requests: seq<Request>, tabs: seq<OrderedTab>)
    requires requests != []
    ensures Answer(host, requests) == Ok(tabs) <==> Shows(host, requests, tabs)
    ensures Shows(host, requests, tabs) ==> forall k | 0 <= k < |tabs| :: tabs[k].position == k
  {
  }

  /** A host that follows a script answers the requests one by one, and nothing once the script is over; one that
      honours requests shows what its tabs have become. */
  lemma {:induction false} HostsAnswer(replies: seq<Reply>, tabs: seq<Tab>, workspace: WorkspaceId,
      requests: seq<Request>)
    requires requests != []
    ensures ReplyTo(Scripted(replies), requests)
            == if |requests| - 1 < |replies| then replies[|requests| - 1] else Failed
    ensures ReplyTo(Honouring(tabs, workspace), requests)
            == Success(Shown(TabsAfter(tabs, requests), workspace,
                             match requests[|requests| - 1]
                             case ListTabs(_) => "tab_list"
                             case MoveTab(_, _) => "tab_moved"))
  {
  }

  // ----- which moves follow -----

  /** Before which position a tab at `from` has to be inserted to end up at `to`: the list still holds it, so the
      places behind it count one more. */
  predicate InsertsFor(from: nat, to: nat, insert: nat) {
    insert == to + (if from < to then 1 else 0)
  }

  lemma {:induction false} InsertIndexIs(from: nat, to: nat)
    ensures InsertsFor(from, to, InsertIndex(from, to))
  {
  }

  /** The swap gets past the list: it shows source and target, and they are two tabs. */
  ghost predicate Starts(host: Host, workspace: WorkspaceId, source: TabId, target: nat, listed: seq<OrderedTab>,
      i: nat, j: nat)
  {
    && Shows(host, [ListTabs(workspace)], listed)
    && StandsAt(listed, source, workspace, i) && NumberedAt(listed, target, workspace, j) && listed[j].id != source
  }

  lemma {:induction false} StartsExactly(host: Host, workspace: WorkspaceId, source: TabId, target: nat,
      listed: seq<OrderedTab>, i: nat, j: nat)
    requires Starts(host, workspace, source, target, listed, i, j)
    ensures listed[i].position == i && listed[j].position == j && listed[i].id == source
    ensures PerformTabSwap(host, workspace, source, target) == MoveBoth(host, workspace, listed[i], listed[j])
  {
    ShownIsAnswered(host, [ListTabs(workspace)], listed);
    FoundById(listed, source, workspace, i);
    FoundByNumber(listed, target, workspace, j);
  }

  /** The list shows the source, and the number names it as well. */
  ghost predicate NamesItself(host: Host, workspace: WorkspaceId, source: TabId, target: nat, listed: seq<OrderedTab>,
      i: nat, j: nat)
  {
    && Shows(host, [ListTabs(workspace)], listed)
    && StandsAt(listed, source, workspace, i) && NumberedAt(listed, target, workspace, j) && listed[j].id == source
  }

  lemma {:induction false} NothingToSwap(host: Host, workspace: WorkspaceId, source: TabId, target: nat,
      listed: seq<OrderedTab>, i: nat, j: nat)
    requires NamesItself(host, workspace, source, target, listed, i, j)
    ensures PerformTabSwap(host, workspace, source, target) == Swap(Swapped, [ListTabs(workspace)])
  {
    ShownIsAnswered(host, [ListTabs(workspace)], listed);
    FoundById(listed, source, workspace, i);
    FoundByNumber(listed, target, workspace, j);
  }

  /** A swap that does not start sends the list request only; it reports success just when the number names the
      source itself. */
  lemma {:induction false} NotStarted(host: Host, workspace: WorkspaceId, source: TabId, target: nat)
    requires forall listed, i: nat, j: nat :: !Starts(host, workspace, source, target, listed, i, j)
    ensures var swap := PerformTabSwap(host, workspace, source, target);
            && swap.requests == [ListTabs(workspace)]
            && (swap.outcome.Swapped? <==>
                  exists listed, i: nat, j: nat :: NamesItself(host, workspace, source, target, listed, i, j))
            && (swap.outcome.Unswapped? ==> swap.outcome.error == Known)
  {
    var asked := [ListTabs(workspace)];
    var answer := Answer(host, asked);
    forall listed, i: nat, j: nat | NamesItself(host, workspace, source, target, listed, i, j)
      ensures PerformTabSwap(host, workspace, source, target).outcome.Swapped?
    {
      NothingToSwap(host, workspace, source, target, listed, i, j);
    }
    if answer.Ok? {
      ShownIsAnswered(host, asked, answer.value);
      if TabById(answer.value, source, workspace).Some? && TabByNumber(answer.value, target, workspace).Some? {
        var i := PlaceOf(answer.value, source, workspace);
        var j := PlaceOfNumber(answer.value, target, workspace);
        assert !Starts(host, workspace, source, target, answer.value, i, j);
        assert NamesItself(host, workspace, source, target, answer.value, i, j);
      }
    }
  }

  /** After the first move the host shows the target in the source's place, and the source somewhere. */
  ghost predicate GoesOn(host: Host, workspace: WorkspaceId, once: seq<Request>, source: TabId, target: TabId, i: nat,
      moved: seq<OrderedTab>, p: nat)
    requires once != []
  {
    Shows(host, once, moved) && StandsAt(moved, target, workspace, i) && StandsAt(moved, source, workspace, p)
  }

  /** The first move asks for the target to take the source's place. The second is sent exactly when the host then
      shows it there, and asks for the source, from where it is shown now, to take the place the target had. */
  lemma {:induction false} MovesExactly(host: Host, workspace: WorkspaceId, source: OrderedTab, target: OrderedTab)
    requires source.position != target.position
    ensures var swap := MoveBoth(host, workspace, source, target);
            var once := [ListTabs(workspace), MoveTab(target.id, InsertIndex(target.position, source.position))];
            && (swap.requests == once <==>
                  forall moved, p :: !GoesOn(host, workspace, once, source.id, target.id, source.position, moved, p))
            && forall moved, p | GoesOn(host, workspace, once, source.id, target.id, source.position, moved, p) ::
                 swap.requests == once + [MoveTab(source.id, InsertIndex(p, target.position))]
  {
    var once := AskThenMove(workspace, target.id, InsertIndex(target.position, source.position));
    var answer := Answer(host, once);
    var i := source.position;
    forall moved, p | GoesOn(host, workspace, once, source.id, target.id, i, moved, p)
      ensures MoveBoth(host, workspace, source, target).requests
              == once + [MoveTab(source.id, InsertIndex(p, target.position))]
    {
      ShownIsAnswered(host, once, moved);
      FoundById(moved, target.id, workspace, i);
      FoundById(moved, source.id, workspace, p);
    }
    if answer.Ok? && NextInsert(answer, workspace, source, target).Ok? {
      ShownIsAnswered(host, once, answer.value);
      var k := PlaceOf(answer.value, target.id, workspace);
      var p := PlaceOf(answer.value, source.id, workspace);
      assert GoesOn(host, workspace, once, source.id, target.id, i, answer.value, p);
    }
  }

  /** Success after two moves is reported exactly when the last answer shows each tab where the other was. */
  lemma {:induction false} SuccessExactly(host: Host, workspace: WorkspaceId, source: OrderedTab, target: OrderedTab)
    ensures var swap := MoveBoth(host, workspace, source, target);
            swap.outcome.Swapped? <==>
              && |swap.requests| == 3
              && exists shown ::
                   && Shows(host, swap.requests, shown)
                   && StandsAt(shown, source.id, workspace, target.position)
                   && StandsAt(shown, target.id, workspace, source.position)
  {
    var swap := MoveBoth(host, workspace, source, target);
    if |swap.requests| == 3 {
      var answer := Answer(host, swap.requests);
      if answer.Ok? {
        ShownIsAnswered(host, swap.requests, answer.value);
        if ShowsExchange(answer.value, workspace, source, target) {
          var a := PlaceOf(answer.value, source.id, workspace);
          var b := PlaceOf(answer.value, target.id, workspace);
        }
      }
      forall shown |
        && Shows(host, swap.requests, shown) && StandsAt(shown, source.id, workspace, target.position)
        && StandsAt(shown, target.id, workspace, source.position)
        ensures swap.outcome.Swapped?
      {
        ShownIsAnswered(host, swap.requests, shown);
        FoundById(shown, source.id, workspace, target.position);
        FoundById(shown, target.id, workspace, source.position);
      }
    }
  }
}
