/** The admin dashboard's state: the selected tab, the fetched rows and the
    loading flag, with the fetch that runs on mount and on every tab change. */
module Admin {
  import opened Common
  import AdminView

  /** `from(table).select(columns).order(orderBy, { ascending })` */
  datatype Query = Query(table: string, columns: string, orderBy: string, ascending: bool)

  /** Every column of the table, newest first. */
  function QueryFor(table: string): Query {
    Query(table, "*", "created_at", false)
  }

  /** What a fetch does that is visible outside the dashboard state, in order. */
  datatype Step = SetLoading(on: bool) | Select(query: Query) | LogError(message: string)

  /** The steps of `fetchData(table)` given the reply of the select: exactly
      one query, for all columns of the named table newest first, with the
      busy flag set at the first step and cleared only at the last. */
  function FetchSteps(table: string, reply: Reply<seq<AdminView.Record>>): (steps: seq<Step>)
    ensures Selects(steps) == [QueryFor(table)]
    ensures steps[0] == SetLoading(true) && steps[|steps| - 1] == SetLoading(false)
    ensures forall i :: 0 < i < |steps| - 1 ==> !steps[i].SetLoading?
  {
    var tail := (if reply.Err? then [LogError(reply.message)] else []) + [SetLoading(false)];
    var steps := [SetLoading(true), Select(QueryFor(table))] + tail;
    assert Selects(tail) == [] by {
      if reply.Err? {
        assert tail[1..] == [SetLoading(false)];
        assert Selects(tail[1..][1..]) == [];
      } else {
        assert Selects(tail[1..]) == [];
      }
    }
    assert steps[1..][1..] == tail;
    steps
  }

  /** The queries of a sequence of steps, in order. */
  function Selects(steps: seq<Step>): seq<Query> {
    if steps == [] then [] else (if steps[0].Select? then [steps[0].query] else []) + Selects(steps[1..])
  }

  /** The queries kept are exactly those of the select steps. */
  lemma {:induction false} SelectsFilter(steps: seq<Step>)
    ensures forall q :: q in Selects(steps) <==> Select(q) in steps
    decreases |steps|
  {
    if steps != [] {
      SelectsFilter(steps[1..]);
      assert steps == [steps[0]] + steps[1..];
    }
  }

  lemma {:induction false} SelectsAppend(a: seq<Step>, b: seq<Step>)
    ensures Selects(a + b) == Selects(a) + Selects(b)
    decreases |a|
  {
    if a != [] {
      SelectsAppend(a[1..], b);
      assert (a + b)[1..] == a[1..] + b;
    } else {
      assert a + b == b;
    }
  }

  /** The two tab buttons. */
  datatype TabButton = ApplicantsButton | InquiriesButton

  /** The tab value each button sets. */
  function TabOf(b: TabButton): string {
    match b
    case ApplicantsButton => "applicants"
    case InquiriesButton => "contacts"
  }

  predicate IsTab(tab: string) {
    tab == "applicants" || tab == "contacts"
  }

  class AdminPanel {
    var activeTab: string
    var data: seq<AdminView.Record>
    var loading: bool

    /** The selected tab is always one of the two tables. */
    ghost predicate Valid()
      reads this
    {
      IsTab(activeTab)
    }

    /** First render, before the mount effect has run. */
    constructor ()
      ensures Valid()
      ensures activeTab == "applicants" && data == [] && loading
    {
      activeTab := "applicants";
      data := [];
      loading := true;
    }

    /** `fetchData(tableName)`: a successful select replaces the rows
        wholesale, a failed one is only logged; loading is cleared either way. */
    method FetchData(tableName: string, reply: Reply<seq<AdminView.Record>>) returns (trace: seq<Step>)
      modifies this
      ensures trace == FetchSteps(tableName, reply)
      ensures data == (if reply.Ok? then reply.value else old(data))
      ensures !loading && activeTab == old(activeTab)
    {
      loading := true;
      trace := [SetLoading(true), Select(QueryFor(tableName))];
      if reply.Err? {
        trace := trace + [LogError(reply.message)];
      } else {
        data := reply.value;
      }
      loading := false;
      trace := trace + [SetLoading(false)];
    }

    /** The effect on mount: fetch the table of the current tab. */
    method Mount(reply: Reply<seq<AdminView.Record>>) returns (trace: seq<Step>)
      requires Valid()
      modifies this
      ensures Valid() && activeTab == old(activeTab)
      ensures trace == FetchSteps(activeTab, reply)
      ensures data == (if reply.Ok? then reply.value else old(data)) && !loading
    {
      trace := FetchData(activeTab, reply);
    }

    /** A tab button: sets the tab; the effect keyed on `activeTab` fetches
        only when the value actually changed. */
    method ClickTab(button: TabButton, reply: Reply<seq<AdminView.Record>>) returns (trace: seq<Step>)
      requires Valid()
      modifies this
      ensures Valid() && activeTab == TabOf(button)
      ensures TabOf(button) == old(activeTab) ==>
        trace == [] && data == old(data) && loading == old(loading)
      ensures TabOf(button) != old(activeTab) ==>
        trace == FetchSteps(activeTab, reply) &&
        data == (if reply.Ok? then reply.value else old(data)) && !loading
    {
      if TabOf(button) == activeTab {
        trace := [];
      } else {
        activeTab := TabOf(button);
        trace := FetchData(activeTab, reply);
      }
    }

    /** The screen for the current state: the spinner while loading, the
        placeholder when nothing was fetched, otherwise one row and one card
        per fetched record. */
    function View(): (v: AdminView.View)
      reads this
      ensures v.Spinner? <==> loading
      ensures v.NoRecords? <==> !loading && data == []
      ensures v.Listing? ==> |v.rows| == |data| && |v.cards| == |data|
    {
      AdminView.Render(loading, data, activeTab)
    }
  }

  /** Three fetches in a row issue their three queries in order. */
  lemma SelectsOfThree(t1: seq<Step>, t2: seq<Step>, t3: seq<Step>, a: string, b: string, c: string)
    requires Selects(t1) == [QueryFor(a)] && Selects(t2) == [QueryFor(b)] && Selects(t3) == [QueryFor(c)]
    ensures Selects(t1 + t2 + t3) == [QueryFor(a), QueryFor(b), QueryFor(c)]
  {
    SelectsAppend(t1, t2);
    SelectsAppend(t1 + t2, t3);
  }

  /** An operator opens the dashboard, switches to inquiries and back: one
      query per transition, each for the table of the tab just entered, and
      the screen lists the last reply's rows in the order they came. */
  method ReviewSession(first: Reply<seq<AdminView.Record>>, second: Reply<seq<AdminView.Record>>,
                       rows: seq<AdminView.Record>)
    returns (issued: seq<Query>, view: AdminView.View)
    requires rows != []
    ensures issued == [QueryFor("applicants"), QueryFor("contacts"), QueryFor("applicants")]
    ensures view.Listing? && |view.rows| == |rows|
    ensures forall i :: 0 <= i < |rows| ==> view.rows[i] == AdminView.TableRow("applicants", rows[i])
  {
    var panel := new AdminPanel();
    var t1 := panel.Mount(first);
    var t2 := panel.ClickTab(InquiriesButton, second);
    var t3 := panel.ClickTab(ApplicantsButton, Ok(rows));
    SelectsOfThree(t1, t2, t3, "applicants", "contacts", "applicants");
    issued := Selects(t1 + t2 + t3);
    view := panel.View();
  }
}
