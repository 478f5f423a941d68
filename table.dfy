/** The table example (examples/table/src/main.rs): an editable list of people shown in
    a table whose rows and columns can be reordered, whose column widths can be dragged,
    and whose selected row can be edited, added to or deleted from.

    `Example::update` changes its three fields in place, so the example is a class whose
    `Update` is proved against the pure `Apply` on snapshots; what each arm means is
    proved about `Apply` in the lemmas below it. */
module TableExample {
  import opened Core

  /** A table row (`Person`); `Person::default()` is the empty name at age 0. */
  datatype Person = Person(name: string, age: U32)

  function DefaultPerson(): Person { Person("", 0) }

  /** iced `Length`; a number converted into a length is `Fixed`. */
  datatype Length = Fill | FillPortion(portion: nat) | Shrink | Fixed(pixels: real)
  datatype Alignment = Start | Center | End
  datatype TableHeadType = Normal | Index

  /** A column head: the field it shows, its caption, width, alignment and kind. */
  datatype TableHead = TableHead(name: string, text: string, width: Length, alignX: Alignment, alignY: Alignment, headType: TableHeadType)

  /** `table_head(name, text)`: a normal column, filled and centred by default. */
  function NewTableHead(name: string, text: string): TableHead
  {
    TableHead(name, text, Fill, Center, Center, TableHeadType.Normal)
  }

  /** `table_index(text)`: the column of 1-based row numbers, linked to no field. */
  function TableIndex(text: string): TableHead
  {
    NewTableHead("", text).(headType := Index)
  }

  /** `TableHead::width(w)`. */
  function WithWidth(h: TableHead, pixels: real): TableHead
  {
    h.(width := Fixed(pixels))
  }

  /** The example's messages; indices arrive as `i32` and widths as `f32`. */
  datatype Message =
    | RowSelected(row: I32)
    | ColWidthChanged(colName: string, newWidth: real)
    | RowMoved(src: I32, dst: I32)
    | ColMoved(src: I32, dst: I32)
    | Add
    | Delete(index: I32)
    | NameChanged(newName: string)
    | AgeChanged(newAge: string)

  datatype ExampleState = ExampleState(tableDatas: seq<Person>, tableHeads: seq<TableHead>, rowSelected: Option<I32>)

  /** `Example::default()`: eight people, an index column and the name and age columns. */
  function DefaultState(): ExampleState
  {
    ExampleState(
      [Person("kim", 18), Person("tom", 20), Person("jerry", 19), Person("lily", 22),
       Person("lucy", 25), Person("harry", 23), Person("peter", 21), Person("bill", 24)],
      [WithWidth(TableIndex("index"), 80.0),
       WithWidth(NewTableHead("name", "user name"), 200.0),
       WithWidth(NewTableHead("age", "user age"), 120.0)],
      Option.None)
  }

  // ---------------------------------------------------------------------------
  // `Vec` operations the example calls
  // ---------------------------------------------------------------------------

  /** `Vec::remove(i)`: the element at `i` goes, the others close up in order. */
  function Removed<T>(s: seq<T>, i: nat): (r: seq<T>)
    requires i < |s|
    ensures |r| == |s| - 1
    ensures forall j :: 0 <= j < i ==> r[j] == s[j]
    ensures forall j :: i <= j < |r| ==> r[j] == s[j + 1]
  {
    s[..i] + s[i + 1..]
  }

  /** `Vec::insert(i, x)`: `x` lands at `i`, the elements from `i` on shift up by one. */
  function Inserted<T>(s: seq<T>, i: nat, x: T): (r: seq<T>)
    requires i <= |s|
    ensures |r| == |s| + 1 && r[i] == x
    ensures forall j :: 0 <= j < i ==> r[j] == s[j]
    ensures forall j :: i < j < |r| ==> r[j] == s[j - 1]
  {
    s[..i] + [x] + s[i..]
  }

  /** Remove at `src`, then insert the removed element at `dst`, as `RowMoved` and
      `ColMoved` do. Both indices must lie inside the list, or the source panics. */
  function Moved<T>(s: seq<T>, src: nat, dst: nat): seq<T>
    requires src < |s| && dst < |s|
  {
    Inserted(Removed(s, src), dst, s[src])
  }

  lemma RemovedInserted<T>(s: seq<T>, i: nat, x: T)
    requires i <= |s|
    ensures Removed(Inserted(s, i, x), i) == s
  {
  }

  lemma InsertedRemoved<T>(s: seq<T>, i: nat)
    requires i < |s|
    ensures Inserted(Removed(s, i), i, s[i]) == s
  {
  }

  lemma RemovedMultiset<T>(s: seq<T>, i: nat)
    requires i < |s|
    ensures multiset(Removed(s, i)) + multiset{s[i]} == multiset(s)
  {
    assert s == s[..i] + [s[i]] + s[i + 1..];
  }

  lemma InsertedMultiset<T>(s: seq<T>, i: nat, x: T)
    requires i <= |s|
    ensures multiset(Inserted(s, i, x)) == multiset(s) + multiset{x}
  {
    assert s == s[..i] + s[i..];
  }

  /** A move is a permutation that puts the moved element at `dst` and keeps the others in
      their relative order. */
  lemma MovedIsPermutation<T>(s: seq<T>, src: nat, dst: nat)
    requires src < |s| && dst < |s|
    ensures |Moved(s, src, dst)| == |s|
    ensures multiset(Moved(s, src, dst)) == multiset(s)
    ensures Moved(s, src, dst)[dst] == s[src]
    ensures Removed(Moved(s, src, dst), dst) == Removed(s, src)
  {
    RemovedMultiset(s, src);
    InsertedMultiset(Removed(s, src), dst, s[src]);
    RemovedInserted(Removed(s, src), dst, s[src]);
  }

  /** Moving back from `dst` to `src` restores the list. */
  lemma MoveBackRestores<T>(s: seq<T>, src: nat, dst: nat)
    requires src < |s| && dst < |s|
    ensures Moved(Moved(s, src, dst), dst, src) == s
  {
    var r := Moved(s, src, dst);
    MovedIsPermutation(s, src, dst);
    InsertedRemoved(s, src);
  }

  // ---------------------------------------------------------------------------
  // Finding a column by name
  // ---------------------------------------------------------------------------

  /** The index of the first head named `name`, as `iter_mut().find` reaches it. */
  function FirstNamed(heads: seq<TableHead>, name: string): (r: Option<nat>)
    ensures r.Some? ==> r.value < |heads| && heads[r.value].name == name
    ensures r.Some? ==> forall j :: 0 <= j < r.value ==> heads[j].name != name
    ensures r.None? ==> forall j :: 0 <= j < |heads| ==> heads[j].name != name
  {
    if |heads| == 0 then Option.None
    else if heads[0].name == name then Some(0)
    else
      match FirstNamed(heads[1..], name)
      case None => Option.None
      case Some(i) => Some(i + 1)
  }

  /** The heads after `ColWidthChanged(name, w)`. */
  function WidthChanged(heads: seq<TableHead>, name: string, w: real): seq<TableHead>
  {
    match FirstNamed(heads, name)
    case None => heads
    case Some(i) => heads[i := heads[i].(width := Fixed(w))]
  }

  /** Only the first head named `name` changes, and only its width; when no head has
      that name nothing changes. */
  lemma WidthChangesFirstMatchOnly(heads: seq<TableHead>, name: string, w: real)
    ensures |WidthChanged(heads, name, w)| == |heads|
    ensures forall i :: 0 <= i < |heads| ==>
      (heads[i].name == name && (forall j :: 0 <= j < i ==> heads[j].name != name)
       ==> WidthChanged(heads, name, w)[i] == heads[i].(width := Fixed(w)))
    ensures forall i :: 0 <= i < |heads| ==>
      (heads[i].name != name || (exists j :: 0 <= j < i && heads[j].name == name)
       ==> WidthChanged(heads, name, w)[i] == heads[i])
    ensures (forall i :: 0 <= i < |heads| ==> heads[i].name != name) ==> WidthChanged(heads, name, w) == heads
  {
  }

  // ---------------------------------------------------------------------------
  // Parsing an age (`str::parse::<u32>`)
  // ---------------------------------------------------------------------------

  predicate IsDigit(c: char) { '0' <= c <= '9' }

  predicate AllDigits(s: string) { forall i :: 0 <= i < |s| ==> IsDigit(s[i]) }

  function DigitValue(c: char): nat
    requires IsDigit(c)
  {
    (c as int) - ('0' as int)
  }

  /** The number a run of decimal digits spells, leading zeros allowed. */
  function DigitsValue(s: string): nat
    requires AllDigits(s)
  {
    if |s| == 0 then 0 else DigitsValue(s[..|s| - 1]) * 10 + DigitValue(s[|s| - 1])
  }

  /** `<u32 as FromStr>::from_str`: an optional `+`, then at least one decimal digit and
      nothing else, with a value that fits in 32 bits. A `-` sign, an empty string, a lone
      `+`, any other character and an overflowing value are errors. */
  function ParseU32(s: string): Option<U32>
  {
    if |s| == 0 then Option.None
    else
      var digits := if s[0] == '+' then s[1..] else s;
      if |digits| == 0 || !AllDigits(digits) then Option.None
      else if DigitsValue(digits) < 0x1_0000_0000 then Some(DigitsValue(digits) as U32)
      else Option.None
  }

  /** `u32::to_string`: the shortest decimal spelling. */
  function Decimal(n: nat): (r: string)
    ensures |r| > 0 && AllDigits(r)
  {
    if n < 10 then [('0' as int + n) as char]
    else Decimal(n / 10) + [('0' as int + n % 10) as char]
  }

  lemma {:induction false} DecimalValue(n: nat)
    ensures DigitsValue(Decimal(n)) == n
    decreases n
  {
    if n >= 10 {
      var d := Decimal(n);
      assert d[..|d| - 1] == Decimal(n / 10);
      DecimalValue(n / 10);
    }
  }

  /** The age a text field shows parses back to that age, with or without a `+`. */
  lemma ParseDecimalRoundTrip(n: U32)
    ensures ParseU32(Decimal(n as nat)) == Some(n)
    ensures ParseU32("+" + Decimal(n as nat)) == Some(n)
  {
    DecimalValue(n as nat);
    assert ("+" + Decimal(n as nat))[1..] == Decimal(n as nat);
  }

  /** A minus sign is never accepted, and neither is a number past `u32::MAX`. */
  lemma ParseRejectsSignAndOverflow(t: string, n: nat)
    requires n >= 0x1_0000_0000
    ensures ParseU32("-" + t) == Option.None
    ensures ParseU32(Decimal(n)) == Option.None
    ensures ParseU32("+") == Option.None
  {
    assert ("-" + t)[0] == '-';
    DecimalValue(n);
  }

  /** Non-empty input that is not a `u32`: `AgeChanged` then touches no row at all. */
  predicate AgeUnparsed(input: string)
  {
    |input| > 0 && ParseU32(input).None?
  }

  /** The age after `AgeChanged(input)` when the selected row's age was `previous`. */
  function AgeAfter(input: string, previous: U32): U32
  {
    if |input| == 0 then 0
    else match ParseU32(input)
      case Some(v) => v
      case None => previous
  }

  // ---------------------------------------------------------------------------
  // `Example::update`
  // ---------------------------------------------------------------------------

  /** A selection names an existing row, so indexing with it does not panic. */
  predicate SelectionInRange(st: ExampleState)
  {
    st.rowSelected.Some? ==> 0 <= st.rowSelected.value as int < |st.tableDatas|
  }

  /** The messages `update` handles without panicking: moved and deleted indices must
      name existing elements (`as usize` sends a negative index out of range), and an edit
      that writes to the selected row needs the selection in range; an age that does not
      parse writes nothing, so it is handled whatever the selection. */
  predicate Accepts(st: ExampleState, msg: Message)
  {
    match msg
    case RowMoved(src, dst) => 0 <= src as int < |st.tableDatas| && 0 <= dst as int < |st.tableDatas|
    case ColMoved(src, dst) => 0 <= src as int < |st.tableHeads| && 0 <= dst as int < |st.tableHeads|
    case Delete(i) => 0 <= i as int < |st.tableDatas|
    case NameChanged(_) => SelectionInRange(st)
    case AgeChanged(input) => SelectionInRange(st) || AgeUnparsed(input)
    case _ => true
  }

  /** The state after `update(msg)`. */
  function Apply(st: ExampleState, msg: Message): ExampleState
    requires Accepts(st, msg)
  {
    match msg
    case RowSelected(row) => st.(rowSelected := Some(row))
    case RowMoved(src, dst) => st.(tableDatas := Moved(st.tableDatas, src as nat, dst as nat))
    case ColMoved(src, dst) => st.(tableHeads := Moved(st.tableHeads, src as nat, dst as nat))
    case ColWidthChanged(name, w) => st.(tableHeads := WidthChanged(st.tableHeads, name, w))
    case Add => st.(tableDatas := st.tableDatas + [DefaultPerson()])
    case Delete(i) =>
      var rows := Removed(st.tableDatas, i as nat);
      st.(tableDatas := rows, rowSelected := if i as int >= |rows| then Option.None else st.rowSelected)
    case NameChanged(name) =>
      if st.rowSelected.None? then st
      else
        var row := st.rowSelected.value as nat;
        st.(tableDatas := st.tableDatas[row := st.tableDatas[row].(name := name)])
    case AgeChanged(input) =>
      if st.rowSelected.None? || AgeUnparsed(input) then st
      else
        var row := st.rowSelected.value as nat;
        st.(tableDatas := st.tableDatas[row := st.tableDatas[row].(age := AgeAfter(input, st.tableDatas[row].age))])
  }

  class Example {
    var tableDatas: seq<Person>
    var tableHeads: seq<TableHead>
    var rowSelected: Option<I32>

    function Snapshot(): ExampleState
      reads this
    {
      ExampleState(tableDatas, tableHeads, rowSelected)
    }

    /** `Example::default()`. */
    constructor ()
      ensures Snapshot() == DefaultState()
    {
      var d := DefaultState();
      tableDatas := d.tableDatas;
      tableHeads := d.tableHeads;
      rowSelected := d.rowSelected;
    }

    /** `iter_mut().find(|x| x.name.eq(&name))`, then the found head's width is set. */
    method ChangeColWidth(name: string, w: real)
      modifies this
      ensures tableHeads == WidthChanged(old(tableHeads), name, w)
      ensures tableDatas == old(tableDatas) && rowSelected == old(rowSelected)
    {
      var i := 0;
      while i < |tableHeads| && tableHeads[i].name != name
        invariant 0 <= i <= |tableHeads|
        invariant forall j :: 0 <= j < i ==> tableHeads[j].name != name
      {
        i := i + 1;
      }
      if i < |tableHeads| {
        assert FirstNamed(tableHeads, name) == Some(i);
        tableHeads := tableHeads[i := tableHeads[i].(width := Fixed(w))];
      }
    }

    /** `Example::update(message)`. */
    method Update(msg: Message)
      requires Accepts(Snapshot(), msg)
      modifies this
      ensures Snapshot() == Apply(old(Snapshot()), msg)
    {
      match msg
      case RowSelected(row) =>
        rowSelected := Some(row);
      case RowMoved(src, dst) =>
        var moved := tableDatas[src];
        tableDatas := Removed(tableDatas, src as nat);
        tableDatas := Inserted(tableDatas, dst as nat, moved);
      case ColMoved(src, dst) =>
        var moved := tableHeads[src];
        tableHeads := Removed(tableHeads, src as nat);
        tableHeads := Inserted(tableHeads, dst as nat, moved);
      case ColWidthChanged(name, w) =>
        ChangeColWidth(name, w);
      case Add =>
        tableDatas := tableDatas + [DefaultPerson()];
      case Delete(index) =>
        tableDatas := Removed(tableDatas, index as nat);
        if index as int >= |tableDatas| {
          rowSelected := Option.None;
        }
      case NameChanged(name) =>
        if rowSelected.Some? {
          var row := rowSelected.value as nat;
          tableDatas := tableDatas[row := tableDatas[row].(name := name)];
        }
      case AgeChanged(input) =>
        if rowSelected.Some? {
          if |input| == 0 {
            var row := rowSelected.value as nat;
            tableDatas := tableDatas[row := tableDatas[row].(age := 0)];
          } else {
            var parsed := ParseU32(input);
            if parsed.Some? {
              var row := rowSelected.value as nat;
              tableDatas := tableDatas[row := tableDatas[row].(age := parsed.value)];
            }
          }
        }
    }
  }

  // ---------------------------------------------------------------------------
  // What each arm does
  // ---------------------------------------------------------------------------

  lemma RowSelectedSelects(st: ExampleState, row: I32)
    ensures Apply(st, RowSelected(row)).rowSelected == Some(row)
    ensures Apply(st, RowSelected(row)).(rowSelected := st.rowSelected) == st
  {
  }

  /** `RowMoved` permutes the rows, puts the moved row at `dst` and leaves the columns and
      the selected index alone (the selection follows the index, not the row). */
  lemma RowMovedPermutesRows(st: ExampleState, src: I32, dst: I32)
    requires Accepts(st, RowMoved(src, dst))
    ensures |Apply(st, RowMoved(src, dst)).tableDatas| == |st.tableDatas|
    ensures multiset(Apply(st, RowMoved(src, dst)).tableDatas) == multiset(st.tableDatas)
    ensures Apply(st, RowMoved(src, dst)).tableDatas[dst] == st.tableDatas[src]
    ensures Removed(Apply(st, RowMoved(src, dst)).tableDatas, dst as nat) == Removed(st.tableDatas, src as nat)
    ensures Apply(st, RowMoved(src, dst)).tableHeads == st.tableHeads
    ensures Apply(st, RowMoved(src, dst)).rowSelected == st.rowSelected
  {
    MovedIsPermutation(st.tableDatas, src as nat, dst as nat);
  }

  /** `ColMoved` is the same permutation of the columns. */
  lemma ColMovedPermutesColumns(st: ExampleState, src: I32, dst: I32)
    requires Accepts(st, ColMoved(src, dst))
    ensures |Apply(st, ColMoved(src, dst)).tableHeads| == |st.tableHeads|
    ensures multiset(Apply(st, ColMoved(src, dst)).tableHeads) == multiset(st.tableHeads)
    ensures Apply(st, ColMoved(src, dst)).tableHeads[dst] == st.tableHeads[src]
    ensures Removed(Apply(st, ColMoved(src, dst)).tableHeads, dst as nat) == Removed(st.tableHeads, src as nat)
    ensures Apply(st, ColMoved(src, dst)).tableDatas == st.tableDatas
    ensures Apply(st, ColMoved(src, dst)).rowSelected == st.rowSelected
  {
    MovedIsPermutation(st.tableHeads, src as nat, dst as nat);
  }

  /** Dragging a row there and back again leaves the table as it was. */
  lemma RowMoveUndone(st: ExampleState, src: I32, dst: I32)
    requires Accepts(st, RowMoved(src, dst))
    ensures Accepts(Apply(st, RowMoved(src, dst)), RowMoved(dst, src))
    ensures Apply(Apply(st, RowMoved(src, dst)), RowMoved(dst, src)) == st
  {
    MoveBackRestores(st.tableDatas, src as nat, dst as nat);
  }

  /** `Add` appends one default row at the end. */
  lemma AddAppendsDefaultRow(st: ExampleState)
    ensures |Apply(st, Add).tableDatas| == |st.tableDatas| + 1
    ensures Apply(st, Add).tableDatas[..|st.tableDatas|] == st.tableDatas
    ensures Apply(st, Add).tableDatas[|st.tableDatas|] == Person("", 0)
    ensures Apply(st, Add).tableHeads == st.tableHeads && Apply(st, Add).rowSelected == st.rowSelected
  {
  }

  /** `Delete(i)` removes row `i`; the selection is cleared exactly when `i` is no longer
      an index of the shorter list, that is when the last row went. */
  lemma DeleteRemovesRow(st: ExampleState, i: I32)
    requires Accepts(st, Delete(i))
    ensures Apply(st, Delete(i)).tableDatas == st.tableDatas[..i as int] + st.tableDatas[i as int + 1..]
    ensures Apply(st, Delete(i)).rowSelected.None? <==>
      (st.rowSelected.None? || i as int >= |Apply(st, Delete(i)).tableDatas|)
    ensures i as int < |Apply(st, Delete(i)).tableDatas| ==> Apply(st, Delete(i)).rowSelected == st.rowSelected
    ensures i as int >= |Apply(st, Delete(i)).tableDatas| <==> i as int == |st.tableDatas| - 1
    ensures Apply(st, Delete(i)).tableHeads == st.tableHeads
  {
  }

  /** `NameChanged` renames the selected row and nothing else; with no selection it does
      nothing. */
  lemma NameChangedRenamesSelected(st: ExampleState, name: string)
    requires Accepts(st, NameChanged(name))
    ensures st.rowSelected.None? ==> Apply(st, NameChanged(name)) == st
    ensures st.rowSelected.Some? ==>
      var row := st.rowSelected.value as int;
      var t := Apply(st, NameChanged(name)).tableDatas;
      |t| == |st.tableDatas| && t[row] == Person(name, st.tableDatas[row].age) &&
      (forall j :: 0 <= j < |t| && j != row ==> t[j] == st.tableDatas[j])
    ensures Apply(st, NameChanged(name)).tableHeads == st.tableHeads
    ensures Apply(st, NameChanged(name)).rowSelected == st.rowSelected
  {
  }

  /** `AgeChanged`: an empty field sets age 0, a valid number sets that age, anything
      else changes nothing, whatever the selection; other rows, and everything without a
      selection, stay. */
  lemma AgeChangedSetsSelectedAge(st: ExampleState, input: string)
    requires Accepts(st, AgeChanged(input))
    ensures st.rowSelected.None? ==> Apply(st, AgeChanged(input)) == st
    ensures AgeUnparsed(input) ==> Apply(st, AgeChanged(input)) == st
    ensures !SelectionInRange(st) ==> AgeUnparsed(input)
    ensures st.rowSelected.Some? && SelectionInRange(st) ==>
      var row := st.rowSelected.value as int;
      var t := Apply(st, AgeChanged(input)).tableDatas;
      |t| == |st.tableDatas| && t[row].name == st.tableDatas[row].name &&
      (|input| == 0 ==> t[row].age == 0) &&
      (|input| > 0 && ParseU32(input).Some? ==> t[row].age == ParseU32(input).value) &&
      (|input| > 0 && ParseU32(input).None? ==> t[row].age == st.tableDatas[row].age) &&
      (forall j :: 0 <= j < |t| && j != row ==> t[j] == st.tableDatas[j])
    ensures Apply(st, AgeChanged(input)).tableHeads == st.tableHeads
    ensures Apply(st, AgeChanged(input)).rowSelected == st.rowSelected
  {
  }

  /** Typing back the age the field shows keeps it. */
  lemma AgeShownIsKept(st: ExampleState)
    requires st.rowSelected.Some? && SelectionInRange(st)
    ensures Apply(st, AgeChanged(Decimal(st.tableDatas[st.rowSelected.value].age as nat))) == st
  {
    var row := st.rowSelected.value as nat;
    ParseDecimalRoundTrip(st.tableDatas[row].age);
    assert st.tableDatas[row := st.tableDatas[row]] == st.tableDatas;
  }

  /** The messages the example's view sends: a selection of an existing row, moves
      inside the tables, the width of a column, `Add`, and `Delete` and edits of the
      selected row only while there is one. */
  predicate FromView(st: ExampleState, msg: Message)
  {
    match msg
    case RowSelected(row) => 0 <= row as int < |st.tableDatas|
    case Delete(i) => st.rowSelected == Some(i)
    case NameChanged(_) => st.rowSelected.Some?
    case AgeChanged(_) => st.rowSelected.Some?
    case _ => Accepts(st, msg)
  }

  /** Driven by its own view, the example never panics: a message the view sends is
      accepted, and the selection keeps naming an existing row. */
  lemma ViewKeepsSelectionInRange(st: ExampleState, msg: Message)
    requires SelectionInRange(st) && FromView(st, msg)
    ensures Accepts(st, msg)
    ensures SelectionInRange(Apply(st, msg))
  {
  }

  /** Without that discipline the selection can be left behind: deleting the first of two
      rows while the second is selected keeps a selection past the end. */
  lemma DeleteCanStrandSelection()
    ensures !SelectionInRange(Apply(ExampleState([DefaultPerson(), DefaultPerson()], [], Some(1)), Delete(0)))
  {
  }

  /** Such a selection does not make every edit panic: an age that does not parse writes
      no row, so it is handled and changes nothing. */
  lemma UnparsedAgeIgnoresStrandedSelection()
    ensures Accepts(ExampleState([], [], Some(0)), AgeChanged("x"))
    ensures Apply(ExampleState([], [], Some(0)), AgeChanged("x")) == ExampleState([], [], Some(0))
  {
    assert !IsDigit("x"[0]);
  }
}
