/** The three stored lists of the page: to-dos, daily goals and exam
    countdowns. Each is a JSON array in browser storage; every operation
    reads the whole array, changes it and writes the whole array back, so
    a list is modelled as a sequence that an operation replaces. */
module Lists {
  import opened Wrappers
  import opened Text

  /** A to-do or a daily goal. `id` comes from `Date.now()` and may repeat
      when two items are created in the same millisecond. */
  datatype Item = Item(id: int, text: string, completed: bool, createdAt: string)

  /** An exam countdown; `date` is the exam's calendar day as a day number. */
  datatype Countdown = Countdown(id: int, name: string, date: int, createdAt: string)

  /** Why an add was refused (the page shows an alert and changes nothing). */
  datatype InputError =
    | EmptyText          // "Please enter a task!" / "Please enter a goal!"
    | MissingNameOrDate  // "Please enter both exam name and date!"
    | DateInPast         // "Please select a future date!"

  // ---------------------------------------------------------------------
  // Array.prototype.filter
  // ---------------------------------------------------------------------

  /** The elements of `s` that `keep` accepts, in their original order. */
  function Filter<T(!new)>(s: seq<T>, keep: T -> bool): (r: seq<T>)
    ensures |r| <= |s|
    ensures forall x :: x in r <==> x in s && keep(x)
  {
    if s == [] then []
    else (if keep(s[0]) then [s[0]] else []) + Filter(s[1..], keep)
  }

  /** Filtering a concatenation filters each part: the relative order of
      the kept elements is the order they had. */
  lemma {:induction false} FilterAppend<T(!new)>(a: seq<T>, b: seq<T>, keep: T -> bool)
    ensures Filter(a + b, keep) == Filter(a, keep) + Filter(b, keep)
    decreases |a|
  {
    if a != [] {
      assert (a + b)[0] == a[0] && (a + b)[1..] == a[1..] + b;
      FilterAppend(a[1..], b, keep);
      assert Filter(a + b, keep)
          == (if keep(a[0]) then [a[0]] else []) + (Filter(a[1..], keep) + Filter(b, keep));
    } else {
      assert a + b == b;
    }
  }

  /** When `keep` accepts every element, nothing is removed. */
  lemma {:induction false} FilterKeepsAll<T(!new)>(s: seq<T>, keep: T -> bool)
    requires forall x :: x in s ==> keep(x)
    ensures Filter(s, keep) == s
    decreases |s|
  {
    if s != [] {
      FilterKeepsAll(s[1..], keep);
    }
  }

  // ---------------------------------------------------------------------
  // add
  // ---------------------------------------------------------------------

  /** `addTodo` / `addGoal` on the stored list: the input is trimmed; an
      all-blank input is refused and the list is untouched; otherwise one
      uncompleted item with the trimmed text is appended at the end and
      every earlier item is kept as it was. */
  function ItemAdded(items: seq<Item>, input: string, id: int, createdAt: string)
    : (r: Result<seq<Item>, InputError>)
    ensures r.Failure? <==> AllBlank(input)
    ensures r.Failure? ==> r.error == EmptyText
    ensures r.Success? ==>
      |r.value| == |items| + 1 && r.value[..|items|] == items &&
      var added := r.value[|items|];
      added.id == id && added.createdAt == createdAt && !added.completed &&
      added.text == Trim(input) && added.text != []
  {
    var text := Trim(input);
    if text == [] then Failure(EmptyText)
    else Success(items + [Item(id, text, false, createdAt)])
  }

  /** `addCountdown` on the stored list: a blank name or an empty date
      field is refused, then a date before today; otherwise one countdown
      with the trimmed name is appended at the end. */
  function CountdownAdded(countdowns: seq<Countdown>, nameInput: string, dateInput: Option<int>,
                        today: int, id: int, createdAt: string)
    : (r: Result<seq<Countdown>, InputError>)
    ensures r.Failure? <==> AllBlank(nameInput) || dateInput.None? || dateInput.value < today
    ensures r.Failure? ==>
      r.error == if AllBlank(nameInput) || dateInput.None? then MissingNameOrDate else DateInPast
    ensures r.Success? ==>
      |r.value| == |countdowns| + 1 && r.value[..|countdowns|] == countdowns &&
      var added := r.value[|countdowns|];
      added.id == id && added.createdAt == createdAt && added.name == Trim(nameInput) &&
      added.name != [] && added.date == dateInput.value && added.date >= today
  {
    var name := Trim(nameInput);
    if name == [] || dateInput.None? then Failure(MissingNameOrDate)
    else if dateInput.value < today then Failure(DateInPast)
    else Success(countdowns + [Countdown(id, name, dateInput.value, createdAt)])
  }

  // ---------------------------------------------------------------------
  // toggle
  // ---------------------------------------------------------------------

  /** `findIndex(item => item.id === id)`: the index of the first item with
      that id, or -1 when there is none. */
  function FirstIndexOf(items: seq<Item>, id: int): (k: int)
    ensures -1 <= k < |items|
    ensures k == -1 <==> forall j :: 0 <= j < |items| ==> items[j].id != id
    ensures k >= 0 ==> items[k].id == id && forall j :: 0 <= j < k ==> items[j].id != id
  {
    if items == [] then -1
    else if items[0].id == id then 0
    else
      var k := FirstIndexOf(items[1..], id);
      if k == -1 then -1 else k + 1
  }

  /** The linear scan behind `findIndex`. */
  method FindIndex(items: seq<Item>, id: int) returns (k: int)
    ensures k == FirstIndexOf(items, id)
  {
    k := 0;
    while k < |items| && items[k].id != id
      invariant 0 <= k <= |items|
      invariant forall j :: 0 <= j < k ==> items[j].id != id
    {
      k := k + 1;
    }
    if k == |items| {
      k := -1;
    }
  }

  function Flipped(item: Item): Item {
    item.(completed := !item.completed)
  }

  /** `toggleTodo` / `toggleGoal`: the first item with the id has its
      `completed` flag flipped; every other item, and the length, stay as
      they were; an absent id changes nothing. */
  function Toggled(items: seq<Item>, id: int): (r: seq<Item>)
    ensures |r| == |items|
    ensures forall j :: 0 <= j < |r| && j != FirstIndexOf(items, id) ==> r[j] == items[j]
    ensures FirstIndexOf(items, id) >= 0 ==>
      var k := FirstIndexOf(items, id);
      r[k].completed == !items[k].completed &&
      r[k].id == items[k].id && r[k].text == items[k].text && r[k].createdAt == items[k].createdAt
  {
    var k := FirstIndexOf(items, id);
    if k == -1 then items else items[k := Flipped(items[k])]
  }

  /** Toggling keeps every id where it was, so the same item is found again. */
  lemma {:induction false} ToggledKeepsIds(items: seq<Item>, id: int, other: int)
    ensures FirstIndexOf(Toggled(items, id), other) == FirstIndexOf(items, other)
  {
    var r := Toggled(items, id);
    assert forall j :: 0 <= j < |r| ==> r[j].id == items[j].id;
    FirstIndexUnique(r, other, FirstIndexOf(items, other));
  }

  /** The contract of `FirstIndexOf` determines its result. */
  lemma FirstIndexUnique(items: seq<Item>, id: int, k: int)
    requires -1 <= k < |items|
    requires k == -1 <==> forall j :: 0 <= j < |items| ==> items[j].id != id
    requires k >= 0 ==> items[k].id == id && forall j :: 0 <= j < k ==> items[j].id != id
    ensures k == FirstIndexOf(items, id)
  {
  }

  /** Toggling the same id twice gives back the original list. */
  lemma ToggleTwice(items: seq<Item>, id: int)
    ensures Toggled(Toggled(items, id), id) == items
  {
    ToggledKeepsIds(items, id, id);
  }

  // ---------------------------------------------------------------------
  // delete
  // ---------------------------------------------------------------------

  function ItemIdIsNot(id: int): Item -> bool {
    (item: Item) => item.id != id
  }

  function CountdownIdIsNot(id: int): Countdown -> bool {
    (c: Countdown) => c.id != id
  }

  /** `filter(item => item.id !== id)` on to-dos or goals: every item with
      the id is removed and no other. */
  function ItemsWithout(items: seq<Item>, id: int): (r: seq<Item>)
    ensures forall x :: x in r <==> x in items && x.id != id
  {
    Filter(items, ItemIdIsNot(id))
  }

  /** `filter(countdown => countdown.id !== id)` on countdowns. */
  function CountdownsWithout(countdowns: seq<Countdown>, id: int): (r: seq<Countdown>)
    ensures forall x :: x in r <==> x in countdowns && x.id != id
  {
    Filter(countdowns, CountdownIdIsNot(id))
  }

  /** Deleting an id a second time changes nothing. */
  lemma DeleteItemIdempotent(items: seq<Item>, id: int)
    ensures ItemsWithout(ItemsWithout(items, id), id) == ItemsWithout(items, id)
  {
    FilterKeepsAll(ItemsWithout(items, id), ItemIdIsNot(id));
  }

  lemma DeleteCountdownIdempotent(countdowns: seq<Countdown>, id: int)
    ensures CountdownsWithout(CountdownsWithout(countdowns, id), id)
         == CountdownsWithout(countdowns, id)
  {
    FilterKeepsAll(CountdownsWithout(countdowns, id), CountdownIdIsNot(id));
  }

  /** Deleting an id that no item carries changes nothing. */
  lemma DeleteAbsentItem(items: seq<Item>, id: int)
    requires forall j :: 0 <= j < |items| ==> items[j].id != id
    ensures ItemsWithout(items, id) == items
  {
    FilterKeepsAll(items, ItemIdIsNot(id));
  }

  /** Deleting keeps the survivors in their order: it distributes over
      concatenation, and a newly added item with another id stays last. */
  lemma DeleteKeepsOrder(a: seq<Item>, b: seq<Item>, id: int)
    ensures ItemsWithout(a + b, id) == ItemsWithout(a, id) + ItemsWithout(b, id)
  {
    FilterAppend(a, b, ItemIdIsNot(id));
  }

  /** Deleting a countdown keeps the order of the others in the same way. */
  lemma DeleteCountdownKeepsOrder(a: seq<Countdown>, b: seq<Countdown>, id: int)
    ensures CountdownsWithout(a + b, id) == CountdownsWithout(a, id) + CountdownsWithout(b, id)
  {
    FilterAppend(a, b, CountdownIdIsNot(id));
  }

  // ---------------------------------------------------------------------
  // The stored lists, updated in place
  // ---------------------------------------------------------------------

  /** The `todos`, `goals` and `countdowns` entries of browser storage. */
  class Store {
    var todos: seq<Item>
    var goals: seq<Item>
    var countdowns: seq<Countdown>

    /** Nothing stored yet: every list reads as `[]`. */
    constructor ()
      ensures todos == [] && goals == [] && countdowns == []
    {
      todos, goals, countdowns := [], [], [];
    }

    /** `addTodo`: returns the refusal, if any; only `todos` changes. */
    method AddTodo(input: string, id: int, createdAt: string) returns (refused: Option<InputError>)
      modifies this
      ensures var r := ItemAdded(old(todos), input, id, createdAt);
        (r.Failure? ==> refused == Some(r.error) && todos == old(todos)) &&
        (r.Success? ==> refused.None? && todos == r.value)
      ensures goals == old(goals) && countdowns == old(countdowns)
    {
      var text := Trim(input);
      if text == [] {
        return Some(EmptyText);
      }
      var list := todos;
      list := list + [Item(id, text, false, createdAt)];
      todos := list;
      refused := None;
    }

    /** `toggleTodo`: only `todos` changes. */
    method ToggleTodo(id: int)
      modifies this
      ensures todos == Toggled(old(todos), id)
      ensures goals == old(goals) && countdowns == old(countdowns)
    {
      var list := todos;
      var k := FindIndex(list, id);
      if k != -1 {
        list := list[k := Flipped(list[k])];
        todos := list;
      }
    }

    /** `deleteTodo`: declining the confirmation leaves everything as it was. */
    method DeleteTodo(id: int, confirmed: bool)
      modifies this
      ensures todos == if confirmed then ItemsWithout(old(todos), id) else old(todos)
      ensures goals == old(goals) && countdowns == old(countdowns)
    {
      if confirmed {
        todos := ItemsWithout(todos, id);
      }
    }

    /** `addGoal`: returns the refusal, if any; only `goals` changes. */
    method AddGoal(input: string, id: int, createdAt: string) returns (refused: Option<InputError>)
      modifies this
      ensures var r := ItemAdded(old(goals), input, id, createdAt);
        (r.Failure? ==> refused == Some(r.error) && goals == old(goals)) &&
        (r.Success? ==> refused.None? && goals == r.value)
      ensures todos == old(todos) && countdowns == old(countdowns)
    {
      var text := Trim(input);
      if text == [] {
        return Some(EmptyText);
      }
      var list := goals;
      list := list + [Item(id, text, false, createdAt)];
      goals := list;
      refused := None;
    }

    /** `toggleGoal`: only `goals` changes. */
    method ToggleGoal(id: int)
      modifies this
      ensures goals == Toggled(old(goals), id)
      ensures todos == old(todos) && countdowns == old(countdowns)
    {
      var list := goals;
      var k := FindIndex(list, id);
      if k != -1 {
        list := list[k := Flipped(list[k])];
        goals := list;
      }
    }

    /** `deleteGoal`: declining the confirmation leaves everything as it was. */
    method DeleteGoal(id: int, confirmed: bool)
      modifies this
      ensures goals == if confirmed then ItemsWithout(old(goals), id) else old(goals)
      ensures todos == old(todos) && countdowns == old(countdowns)
    {
      if confirmed {
        goals := ItemsWithout(goals, id);
      }
    }

    /** `addCountdown`, with today's day number as an input; returns the
        refusal, if any; only `countdowns` changes. */
    method AddCountdown(nameInput: string, dateInput: Option<int>, today: int, id: int,
                        createdAt: string)
      returns (refused: Option<InputError>)
      modifies this
      ensures var r := CountdownAdded(old(countdowns), nameInput, dateInput, today, id, createdAt);
        (r.Failure? ==> refused == Some(r.error) && countdowns == old(countdowns)) &&
        (r.Success? ==> refused.None? && countdowns == r.value)
      ensures todos == old(todos) && goals == old(goals)
    {
      var name := Trim(nameInput);
      if name == [] || dateInput.None? {
        return Some(MissingNameOrDate);
      }
      if dateInput.value < today {
        return Some(DateInPast);
      }
      var list := countdowns;
      list := list + [Countdown(id, name, dateInput.value, createdAt)];
      countdowns := list;
      refused := None;
    }

    /** `deleteCountdown`: declining the confirmation leaves everything as it was. */
    method DeleteCountdown(id: int, confirmed: bool)
      modifies this
      ensures countdowns == if confirmed then CountdownsWithout(old(countdowns), id) else old(countdowns)
      ensures todos == old(todos) && goals == old(goals)
    {
      if confirmed {
        countdowns := CountdownsWithout(countdowns, id);
      }
    }
  }
}
