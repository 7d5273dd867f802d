/** What the admin dashboard shows for a given `(loading, data, activeTab)`:
    a spinner, the "No Records Found" placeholder, or the record listing
    (a table for wide screens and a card list for narrow ones, both rendered). */
module AdminView {
  import opened Common

  /** A fetched row: column name to value. */
  type Record = map<string, string>

  /** `item[column]`; a missing column is `undefined` and renders nothing. */
  function FieldOf(r: Record, column: string): Option<string> {
    if column in r then Some(r[column]) else None
  }

  /** How a value is presented: a locale date, plain text, quoted text, or a link with a label. */
  datatype Form = AsDate | AsText | AsQuote | AsLink(caption: string)

  /** One value shown on screen: the column it comes from and its value. */
  datatype Shown = Shown(column: string, value: Option<string>, form: Form)

  /** The values of one table cell (`<td>`), in document order. */
  type Cell = seq<Shown>

  datatype View =
    | Spinner
    | NoRecords
    | Listing(header: seq<string>, rows: seq<seq<Cell>>, cards: seq<seq<Shown>>)

  function Show(r: Record, column: string, form: Form): Shown {
    Shown(column, FieldOf(r, column), form)
  }

  /** The values of a row of cells, in document order. */
  function Flatten(cells: seq<Cell>): seq<Shown> {
    if cells == [] then [] else cells[0] + Flatten(cells[1..])
  }

  /** The columns a list of shown values comes from. */
  function Columns(shown: seq<Shown>): set<string> {
    set s | s in shown :: s.column
  }

  /** Every value shown is the record's own value for its column. */
  predicate ShowsRecord(shown: seq<Shown>, r: Record) {
    forall s :: s in shown ==> s.value == FieldOf(r, s.column)
  }

  /** What both tabs show of a record. */
  const CommonColumns: set<string> := {"created_at", "name", "email", "phone"}

  /** The columns that depend on the tab. */
  function TabColumns(tab: string): set<string> {
    if tab == "applicants" then {"position", "cv_url"} else {"message"}
  }

  /** The table header: one title per cell of every row. */
  function Header(tab: string): (h: seq<string>)
    ensures forall r :: |h| == |TableRow(tab, r)|
  {
    ["Date", "Name", "Contact"] + (if tab == "applicants" then ["Position", "Resume"] else ["Message"])
  }

  /** One table row: date, name, email and phone, plus position and the CV
      link for applicants or the message otherwise, all taken from the record. */
  function TableRow(tab: string, r: Record): (row: seq<Cell>)
    ensures Columns(Flatten(row)) == CommonColumns + TabColumns(tab)
    ensures ShowsRecord(Flatten(row), r)
  {
    var date, name, contact := [Show(r, "created_at", AsDate)], [Show(r, "name", AsText)],
                               [Show(r, "email", AsText), Show(r, "phone", AsText)];
    var last := if tab == "applicants" then [[Show(r, "position", AsText)], [Show(r, "cv_url", AsLink("View CV"))]]
                else [[Show(r, "message", AsQuote)]];
    var row := [date] + ([name] + ([contact] + last));
    assert Flatten(row) == RowValues(tab, r) by {
      FlattenCons(last[0], last[1..]);
      if tab == "applicants" {
        FlattenCons(last[1], []);
        assert last[1..] == [last[1]] + [];
      }
      FlattenCons(contact, last);
      FlattenCons(name, [contact] + last);
      FlattenCons(date, [name] + ([contact] + last));
    }
    RowValuesColumns(tab, r);
    row
  }

  /** The values of a table row, cell after cell. */
  function RowValues(tab: string, r: Record): seq<Shown> {
    [Show(r, "created_at", AsDate)] + ([Show(r, "name", AsText)] +
    ([Show(r, "email", AsText), Show(r, "phone", AsText)] +
     (if tab == "applicants" then [Show(r, "position", AsText), Show(r, "cv_url", AsLink("View CV"))]
      else [Show(r, "message", AsQuote)])))
  }

  lemma RowValuesColumns(tab: string, r: Record)
    ensures Columns(RowValues(tab, r)) == CommonColumns + TabColumns(tab)
    ensures ShowsRecord(RowValues(tab, r), r)
  {
    var last := if tab == "applicants" then [Show(r, "position", AsText), Show(r, "cv_url", AsLink("View CV"))]
                else [Show(r, "message", AsQuote)];
    assert RowValues(tab, r) == [Show(r, "created_at", AsDate)] + ([Show(r, "name", AsText)] +
                                ([Show(r, "email", AsText), Show(r, "phone", AsText)] + last));
    RowColumnsOf([Show(r, "created_at", AsDate)], [Show(r, "name", AsText)],
                 [Show(r, "email", AsText), Show(r, "phone", AsText)], last);
    LastColumns(tab, r, last);
    RowValuesShowRecord(tab, r);
  }

  /** The tab-dependent values name the tab's own columns. */
  lemma LastColumns(tab: string, r: Record, last: seq<Shown>)
    requires last == if tab == "applicants" then [Show(r, "position", AsText), Show(r, "cv_url", AsLink("View CV"))]
                     else [Show(r, "message", AsQuote)]
    ensures Columns(last) == TabColumns(tab)
  {
    if tab == "applicants" {
      ColumnsOfTwo(last[0], last[1]);
    } else {
      ColumnsOfOne(last[0]);
    }
  }

  lemma RowValuesShowRecord(tab: string, r: Record)
    ensures ShowsRecord(RowValues(tab, r), r)
  {
  }

  lemma RowColumnsOf(date: seq<Shown>, name: seq<Shown>, contact: seq<Shown>, last: seq<Shown>)
    requires |date| == 1 && |name| == 1 && |contact| == 2
    ensures Columns(date + (name + (contact + last))) ==
            {date[0].column, name[0].column, contact[0].column, contact[1].column} + Columns(last)
  {
    ColumnsOfOne(date[0]);
    assert date == [date[0]];
    ColumnsOfOne(name[0]);
    assert name == [name[0]];
    ColumnsOfTwo(contact[0], contact[1]);
    assert contact == [contact[0], contact[1]];
    ColumnsAppend(contact, last);
    ColumnsAppend(name, contact + last);
    ColumnsAppend(date, name + (contact + last));
  }

  lemma ColumnsAppend(a: seq<Shown>, b: seq<Shown>)
    ensures Columns(a + b) == Columns(a) + Columns(b)
  {
    forall x | x in Columns(a + b) ensures x in Columns(a) + Columns(b) {
      var s :| s in a + b && s.column == x;
    }
    forall x | x in Columns(a) + Columns(b) ensures x in Columns(a + b) {
      if x in Columns(a) {
        var s :| s in a && s.column == x;
        assert s in a + b;
      } else {
        var s :| s in b && s.column == x;
        assert s in a + b;
      }
    }
  }

  lemma ColumnsOfOne(s: Shown)
    ensures Columns([s]) == {s.column}
  {
    assert s in [s];
  }

  lemma ColumnsOfTwo(s: Shown, t: Shown)
    ensures Columns([s, t]) == {s.column, t.column}
  {
    assert s in [s, t] && t in [s, t];
  }

  lemma FlattenCons(c: Cell, cs: seq<Cell>)
    ensures Flatten([c] + cs) == c + Flatten(cs)
  {
    assert ([c] + cs)[1..] == cs;
  }

  /** One card. The card tests the tab differently from the table: the badge
      appears for "applicants", the message for "contacts" and the resume link
      otherwise. On either of the two tabs it shows the same columns as a table
      row, and every value is taken from the record. */
  function Card(tab: string, r: Record): (card: seq<Shown>)
    ensures ShowsRecord(card, r)
    ensures tab == "applicants" || tab == "contacts" ==> Columns(card) == CommonColumns + TabColumns(tab)
  {
    var head := [Show(r, "name", AsText), Show(r, "created_at", AsDate)];
    var badge := if tab == "applicants" then [Show(r, "position", AsText)] else [];
    var contact := [Show(r, "email", AsText), Show(r, "phone", AsText)];
    var foot := if tab == "contacts" then [Show(r, "message", AsQuote)]
                else [Show(r, "cv_url", AsLink("Download Resume"))];
    CardColumnsOf(head, badge, contact, foot);
    CardTabColumns(tab, head[0].column, head[1].column, badge, contact[0].column, contact[1].column, foot[0].column);
    CardPartsShowRecord(r, head, badge, contact, foot);
    head + badge + contact + foot
  }

  /** The columns of a card's parts add up to the tab's columns on either tab. */
  lemma CardTabColumns(tab: string, name: string, date: string, badge: seq<Shown>, email: string, phone: string, foot: string)
    requires name == "name" && date == "created_at" && email == "email" && phone == "phone"
    requires |badge| <= 1 && (badge != [] <==> tab == "applicants") && (badge != [] ==> badge[0].column == "position")
    requires foot == if tab == "contacts" then "message" else "cv_url"
    ensures tab == "applicants" || tab == "contacts" ==>
      {name, date, email, phone, foot} + (if badge == [] then {} else {badge[0].column}) == CommonColumns + TabColumns(tab)
  {
  }

  /** Parts made of the record's own values make a card of the record's own values. */
  lemma CardPartsShowRecord(r: Record, head: seq<Shown>, badge: seq<Shown>, contact: seq<Shown>, foot: seq<Shown>)
    requires ShowsRecord(head, r) && ShowsRecord(badge, r) && ShowsRecord(contact, r) && ShowsRecord(foot, r)
    ensures ShowsRecord(head + badge + contact + foot, r)
  {
  }

  lemma CardColumnsOf(head: seq<Shown>, badge: seq<Shown>, contact: seq<Shown>, foot: seq<Shown>)
    requires |head| == 2 && |contact| == 2 && |badge| <= 1 && |foot| == 1
    ensures Columns(head + badge + contact + foot) ==
            {head[0].column, head[1].column, contact[0].column, contact[1].column, foot[0].column} +
            (if badge == [] then {} else {badge[0].column})
  {
    ColumnsOfTwo(head[0], head[1]);
    assert head == [head[0], head[1]];
    ColumnsOfTwo(contact[0], contact[1]);
    assert contact == [contact[0], contact[1]];
    ColumnsOfOne(foot[0]);
    assert foot == [foot[0]];
    if badge != [] {
      ColumnsOfOne(badge[0]);
      assert badge == [badge[0]];
    }
    ColumnsAppend(head, badge);
    ColumnsAppend(head + badge, contact);
    ColumnsAppend(head + badge + contact, foot);
  }

  /** `xs.map(f)`: one output per input, in the same order. */
  function MapSeq<T, U>(f: T -> U, xs: seq<T>): (ys: seq<U>)
    ensures |ys| == |xs|
    ensures forall i :: 0 <= i < |xs| ==> ys[i] == f(xs[i])
  {
    if xs == [] then [] else [f(xs[0])] + MapSeq(f, xs[1..])
  }

  /** The screen for the dashboard state. */
  function Render(loading: bool, data: seq<Record>, tab: string): (v: View)
    ensures v.Spinner? <==> loading
    ensures v.NoRecords? <==> !loading && data == []
    ensures v.Listing? ==>
      v.header == Header(tab) && |v.rows| == |data| && |v.cards| == |data| &&
      forall i :: 0 <= i < |data| ==> v.rows[i] == TableRow(tab, data[i]) && v.cards[i] == Card(tab, data[i])
  {
    if loading then Spinner
    else if |data| == 0 then NoRecords
    else Listing(Header(tab), MapSeq(r => TableRow(tab, r), data), MapSeq(r => Card(tab, r), data))
  }

  /** The link cell of an applicant's row points at the record's `cv_url`. */
  lemma ApplicantRowLinksToCv(r: Record)
    ensures [Show(r, "cv_url", AsLink("View CV"))] in TableRow("applicants", r)
  {
    assert TableRow("applicants", r)[4] == [Show(r, "cv_url", AsLink("View CV"))];
  }

  /** The link at the foot of an applicant's card points at the record's `cv_url`. */
  lemma ApplicantCardLinksToCv(r: Record)
    ensures Show(r, "cv_url", AsLink("Download Resume")) in Card("applicants", r)
  {
    assert Card("applicants", r)[5] == Show(r, "cv_url", AsLink("Download Resume"));
  }

  /** Outside the two tabs the table and the cards would disagree: the table
      shows the message and the card the resume link. */
  lemma OtherTabDisagrees(tab: string, r: Record)
    requires tab != "applicants" && tab != "contacts"
    ensures Columns(Flatten(TableRow(tab, r))) != Columns(Card(tab, r))
  {
    var card := Card(tab, r);
    assert card[4] == Show(r, "cv_url", AsLink("Download Resume"));
    forall s | s in card ensures s.column != "message" {
      var k :| 0 <= k < |card| && card[k] == s;
      assert k < 5;
    }
    assert "message" !in Columns(card);
  }
}
