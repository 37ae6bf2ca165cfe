/**
 * The client's message list: the header filter layout built from the
 * messages on display, the list of selected message ids, the select-all
 * toggle, the guard and the list pruning around move and delete, and the
 * three-state column sort.
 */
module MessageView {
  import opened Wrappers

  /** A message as the client holds it; `headerKeys` are its header names in the order the object lists them. */
  datatype ClientMessage = ClientMessage(
    queue: string, messageId: string, body: string, correlationId: string, headerKeys: seq<string>, isChecked: bool)

  // ---- header names and filter rows -----------------------------------------------

  /** Every header name of every message, in message order and then key order. */
  function AllKeys(msgs: seq<ClientMessage>): seq<string>
  {
    if |msgs| == 0 then [] else AllKeys(msgs[..|msgs| - 1]) + msgs[|msgs| - 1].headerKeys
  }

  /** The first occurrence of each element, in the order of first occurrence. */
  function Dedup(s: seq<string>): seq<string>
  {
    if |s| == 0 then []
    else
      var d := Dedup(s[..|s| - 1]);
      if s[|s| - 1] in d then d else d + [s[|s| - 1]]
  }

  lemma DedupSnoc(s: seq<string>, x: string)
    ensures Dedup(s + [x]) == if x in Dedup(s) then Dedup(s) else Dedup(s) + [x]
  {
    assert (s + [x])[..|s|] == s;
  }

  /** The position of the first occurrence of `x` in `s`. */
  function FirstIndex(s: seq<string>, x: string): (i: nat)
    requires x in s
    ensures i < |s| && s[i] == x && forall j :: 0 <= j < i ==> s[j] != x
  {
    if s[0] == x then 0 else 1 + FirstIndex(s[1..], x)
  }

  predicate Distinct(s: seq<string>)
  {
    forall i, j :: 0 <= i < j < |s| ==> s[i] != s[j]
  }

  /**
   * The header names: each name exactly once, and in the order of first
   * occurrence.
   */
  lemma {:induction false} DedupFacts(s: seq<string>)
    ensures Distinct(Dedup(s))
    ensures forall x :: x in Dedup(s) <==> x in s
    ensures forall i, j :: 0 <= i < j < |Dedup(s)| ==> FirstIndex(s, Dedup(s)[i]) < FirstIndex(s, Dedup(s)[j])
  {
    if |s| > 0 {
      var init := s[..|s| - 1];
      var x := s[|s| - 1];
      DedupFacts(init);
      assert s == init + [x];
      var d := Dedup(init);
      forall y | y in init
        ensures FirstIndex(s, y) == FirstIndex(init, y)
      {
        FirstIndexPrefix(init, [x], y);
      }
      if x !in d {
        assert x !in init;
        assert FirstIndex(s, x) == |init| by {
          assert s[|init|] == x;
          assert forall j :: 0 <= j < |init| ==> s[j] == init[j];
        }
        forall i, j | 0 <= i < j < |Dedup(s)|
          ensures FirstIndex(s, Dedup(s)[i]) < FirstIndex(s, Dedup(s)[j])
        {
          if j < |d| {
            assert Dedup(s)[i] == d[i] && Dedup(s)[j] == d[j];
          } else {
            assert Dedup(s)[i] == d[i] && d[i] in init;
          }
        }
      }
    }
  }

  lemma {:induction false} FirstIndexPrefix(s: seq<string>, t: seq<string>, x: string)
    requires x in s
    ensures x in s + t && FirstIndex(s + t, x) == FirstIndex(s, x)
  {
    if s[0] != x {
      assert (s + t)[1..] == s[1..] + t;
      FirstIndexPrefix(s[1..], t, x);
    }
  }

  /** The rows after one more name, in terms of the full rows and the last one. */
  lemma RowsStep(rows: seq<seq<string>>, currRow: seq<string>, names: seq<string>, x: string)
    requires rows + [currRow] == Rows(names)
    ensures |currRow| < 3 ==> rows + [currRow + [x]] == Rows(names + [x])
    ensures |currRow| >= 3 ==> rows + [currRow] + [[x]] == Rows(names + [x])
  {
    RowsSnoc(names, x);
    assert (rows + [currRow])[..|rows|] == rows;
  }

  /** The filter rows: the header names three to a row, with one (possibly empty) last row. */
  function Rows(names: seq<string>): (rows: seq<seq<string>>)
    ensures |rows| >= 1
    decreases |names|
  {
    if |names| <= 3 then [names] else [names[..3]] + Rows(names[3..])
  }

  function Concat(rows: seq<seq<string>>): seq<string>
  {
    if |rows| == 0 then [] else rows[0] + Concat(rows[1..])
  }

  /**
   * The rows hold the names in order, at most three to a row, all rows but
   * the last full, and there are max(1, ceil(k/3)) of them.
   */
  lemma {:induction false} RowsFacts(names: seq<string>)
    ensures Concat(Rows(names)) == names
    ensures forall r :: 0 <= r < |Rows(names)| ==> |Rows(names)[r]| <= 3
    ensures forall r :: 0 <= r < |Rows(names)| - 1 ==> |Rows(names)[r]| == 3
    ensures |Rows(names)| == if |names| == 0 then 1 else (|names| + 2) / 3
    decreases |names|
  {
    if |names| > 3 {
      RowsFacts(names[3..]);
      assert Rows(names)[1..] == Rows(names[3..]);
      assert names == names[..3] + names[3..];
    } else {
      assert Rows(names)[1..] == [];
    }
  }

  /** Appending a name fills the last row, or opens a new row once the last one holds three. */
  lemma {:induction false} RowsSnoc(names: seq<string>, x: string)
    ensures var rows := Rows(names);
      var last := rows[|rows| - 1];
      Rows(names + [x]) == if |last| < 3 then rows[..|rows| - 1] + [last + [x]] else rows + [[x]]
    decreases |names|
  {
    if |names| > 3 {
      RowsSnoc(names[3..], x);
      assert (names + [x])[..3] == names[..3];
      assert (names + [x])[3..] == names[3..] + [x];
    } else if |names| == 3 {
      assert (names + [x])[..3] == names;
      assert (names + [x])[3..] == [x];
    }
  }

  // ---- sorting --------------------------------------------------------------------

  /** The message property a column sorts on. */
  datatype SortField = ById | ByBody | ByQueue | ByCorrelationId

  function Field(m: ClientMessage, f: SortField): string
  {
    match f
    case ById => m.messageId
    case ByBody => m.body
    case ByQueue => m.queue
    case ByCorrelationId => m.correlationId
  }

  /** A total order on strings, standing for the locale's collation: code-unit lexicographic order. */
  predicate TextLeq(a: string, b: string)
  {
    if |a| == 0 then true
    else if |b| == 0 then false
    else if a[0] != b[0] then a[0] < b[0]
    else TextLeq(a[1..], b[1..])
  }

  lemma {:induction false} TextLeqTotal(a: string, b: string)
    ensures TextLeq(a, b) || TextLeq(b, a)
  {
    if |a| > 0 && |b| > 0 && a[0] == b[0] {
      TextLeqTotal(a[1..], b[1..]);
    }
  }

  lemma {:induction false} TextLeqTransitive(a: string, b: string, c: string)
    requires TextLeq(a, b) && TextLeq(b, c)
    ensures TextLeq(a, c)
  {
    if |a| > 0 && |b| > 0 && |c| > 0 && a[0] == b[0] && b[0] == c[0] {
      TextLeqTransitive(a[1..], b[1..], c[1..]);
    }
  }

  /** `a` may precede `b` in the chosen direction. */
  predicate InOrder(a: ClientMessage, b: ClientMessage, f: SortField, descending: bool)
  {
    if descending then TextLeq(Field(b, f), Field(a, f)) else TextLeq(Field(a, f), Field(b, f))
  }

  lemma InOrderTotal(a: ClientMessage, b: ClientMessage, f: SortField, descending: bool)
    ensures InOrder(a, b, f, descending) || InOrder(b, a, f, descending)
  {
    TextLeqTotal(Field(a, f), Field(b, f));
  }

  lemma InOrderTransitive(a: ClientMessage, b: ClientMessage, c: ClientMessage, f: SortField, descending: bool)
    requires InOrder(a, b, f, descending) && InOrder(b, c, f, descending)
    ensures InOrder(a, c, f, descending)
  {
    if descending {
      TextLeqTransitive(Field(c, f), Field(b, f), Field(a, f));
    } else {
      TextLeqTransitive(Field(a, f), Field(b, f), Field(c, f));
    }
  }

  predicate Sorted(s: seq<ClientMessage>, f: SortField, descending: bool)
  {
    forall i, j :: 0 <= i < j < |s| ==> InOrder(s[i], s[j], f, descending)
  }

  /** Put `x` after every element it does not precede strictly, keeping equal elements in their order. */
  function Insert(x: ClientMessage, s: seq<ClientMessage>, f: SortField, descending: bool): seq<ClientMessage>
  {
    if |s| == 0 then [x]
    else if !InOrder(s[0], x, f, descending) then [x] + s
    else [s[0]] + Insert(x, s[1..], f, descending)
  }

  /** A stable sort of the list on one property, in one direction. */
  function SortOn(s: seq<ClientMessage>, f: SortField, descending: bool): seq<ClientMessage>
  {
    if |s| == 0 then [] else Insert(s[|s| - 1], SortOn(s[..|s| - 1], f, descending), f, descending)
  }

  lemma {:induction false} InsertPermutes(x: ClientMessage, s: seq<ClientMessage>, f: SortField, descending: bool)
    ensures multiset(Insert(x, s, f, descending)) == multiset(s) + multiset{x}
  {
    if |s| > 0 && InOrder(s[0], x, f, descending) {
      InsertPermutes(x, s[1..], f, descending);
      assert s == [s[0]] + s[1..];
    }
  }

  lemma {:induction false} InsertElements(x: ClientMessage, s: seq<ClientMessage>, f: SortField, descending: bool, y: ClientMessage)
    requires y in Insert(x, s, f, descending)
    ensures y == x || y in s
  {
    if |s| > 0 && InOrder(s[0], x, f, descending) && y != s[0] {
      InsertElements(x, s[1..], f, descending, y);
    }
  }

  lemma {:induction false} InsertSorted(x: ClientMessage, s: seq<ClientMessage>, f: SortField, descending: bool)
    requires Sorted(s, f, descending)
    ensures Sorted(Insert(x, s, f, descending), f, descending)
  {
    if |s| == 0 {
    } else if !InOrder(s[0], x, f, descending) {
      InOrderTotal(s[0], x, f, descending);
      forall y | y in s
        ensures InOrder(x, y, f, descending)
      {
        var k :| 0 <= k < |s| && s[k] == y;
        if k > 0 {
          InOrderTransitive(x, s[0], y, f, descending);
        }
      }
      SortedCons(x, s, f, descending);
    } else {
      InsertSorted(x, s[1..], f, descending);
      var t := Insert(x, s[1..], f, descending);
      forall y | y in t
        ensures InOrder(s[0], y, f, descending)
      {
        InsertElements(x, s[1..], f, descending, y);
        if y != x {
          var k :| 0 <= k < |s[1..]| && s[1..][k] == y;
          assert s[k + 1] == y;
        }
      }
      SortedCons(s[0], t, f, descending);
    }
  }

  /** An element in order before every element of a sorted list can head it. */
  lemma SortedCons(x: ClientMessage, s: seq<ClientMessage>, f: SortField, descending: bool)
    requires Sorted(s, f, descending)
    requires forall y :: y in s ==> InOrder(x, y, f, descending)
    ensures Sorted([x] + s, f, descending)
  {
    var r := [x] + s;
    forall i, j | 0 <= i < j < |r|
      ensures InOrder(r[i], r[j], f, descending)
    {
      if i == 0 {
        assert r[j] == s[j - 1] && r[j] in s;
      } else {
        assert r[i] == s[i - 1] && r[j] == s[j - 1];
      }
    }
  }

  /** The sorted list is a permutation of the list, ordered in the chosen direction. */
  lemma {:induction false} SortOnFacts(s: seq<ClientMessage>, f: SortField, descending: bool)
    ensures multiset(SortOn(s, f, descending)) == multiset(s)
    ensures Sorted(SortOn(s, f, descending), f, descending)
  {
    if |s| > 0 {
      SortOnFacts(s[..|s| - 1], f, descending);
      InsertPermutes(s[|s| - 1], SortOn(s[..|s| - 1], f, descending), f, descending);
      InsertSorted(s[|s| - 1], SortOn(s[..|s| - 1], f, descending), f, descending);
      assert s == s[..|s| - 1] + [s[|s| - 1]];
    }
  }

  /** The messages of `s` whose property `f` is `v`, in order. */
  function WithKey(s: seq<ClientMessage>, f: SortField, v: string): seq<ClientMessage>
  {
    if |s| == 0 then [] else (if Field(s[0], f) == v then [s[0]] else []) + WithKey(s[1..], f, v)
  }

  lemma {:induction false} TextLeqReflexive(a: string)
    ensures TextLeq(a, a)
  {
    if |a| > 0 {
      TextLeqReflexive(a[1..]);
    }
  }

  lemma {:induction false} WithKeyAppend(a: seq<ClientMessage>, b: seq<ClientMessage>, f: SortField, v: string)
    ensures WithKey(a + b, f, v) == WithKey(a, f, v) + WithKey(b, f, v)
  {
    if |a| > 0 {
      WithKeyAppend(a[1..], b, f, v);
      assert (a + b)[0] == a[0] && (a + b)[1..] == a[1..] + b;
    } else {
      assert a + b == b;
    }
  }

  lemma {:induction false} WithKeyNone(s: seq<ClientMessage>, f: SortField, v: string)
    requires forall i :: 0 <= i < |s| ==> Field(s[i], f) != v
    ensures WithKey(s, f, v) == []
  {
    if |s| > 0 {
      WithKeyNone(s[1..], f, v);
    }
  }

  /** An element that precedes the head of a sorted list strictly shares its key with no element of the list. */
  lemma KeyAbsentAfter(x: ClientMessage, s: seq<ClientMessage>, f: SortField, descending: bool)
    requires Sorted(s, f, descending) && |s| > 0 && !InOrder(s[0], x, f, descending)
    ensures forall i :: 0 <= i < |s| ==> Field(s[i], f) != Field(x, f)
  {
    forall i | 0 <= i < |s|
      ensures Field(s[i], f) != Field(x, f)
    {
      TextLeqReflexive(Field(x, f));
      if i > 0 {
        assert InOrder(s[0], s[i], f, descending);
      }
    }
  }

  /** The key `v` occurrences of `[x] + s` when `x` precedes every element of `s` with its key. */
  lemma WithKeyFront(x: ClientMessage, s: seq<ClientMessage>, f: SortField, v: string)
    requires forall i :: 0 <= i < |s| ==> Field(s[i], f) != Field(x, f)
    ensures WithKey([x] + s, f, v) == WithKey(s, f, v) + (if Field(x, f) == v then [x] else [])
  {
    WithKeyAppend([x], s, f, v);
    assert WithKey([x], f, v) == (if Field(x, f) == v then [x] else []) + WithKey([], f, v);
    if Field(x, f) == v {
      WithKeyNone(s, f, v);
    }
  }

  /** Inserting into a sorted list puts `x` after every element with the same key. */
  lemma {:induction false} InsertWithKey(x: ClientMessage, s: seq<ClientMessage>, f: SortField, descending: bool, v: string)
    requires Sorted(s, f, descending)
    ensures WithKey(Insert(x, s, f, descending), f, v) == WithKey(s, f, v) + (if Field(x, f) == v then [x] else [])
  {
    if |s| == 0 {
      WithKeyFront(x, s, f, v);
      assert Insert(x, s, f, descending) == [x] + s;
    } else if !InOrder(s[0], x, f, descending) {
      KeyAbsentAfter(x, s, f, descending);
      WithKeyFront(x, s, f, v);
    } else {
      var rest := Insert(x, s[1..], f, descending);
      assert Insert(x, s, f, descending) == [s[0]] + rest;
      InsertWithKey(x, s[1..], f, descending, v);
      WithKeyAppend([s[0]], rest, f, v);
      WithKeyAppend([s[0]], s[1..], f, v);
      assert s == [s[0]] + s[1..];
    }
  }

  /** The sort is stable: messages with the same key keep their relative order. */
  lemma {:induction false} SortOnStable(s: seq<ClientMessage>, f: SortField, descending: bool, v: string)
    ensures WithKey(SortOn(s, f, descending), f, v) == WithKey(s, f, v)
  {
    if |s| > 0 {
      var init, last := s[..|s| - 1], s[|s| - 1];
      var sorted := SortOn(init, f, descending);
      var own := if Field(last, f) == v then [last] else [];
      calc {
        WithKey(SortOn(s, f, descending), f, v);
        WithKey(Insert(last, sorted, f, descending), f, v);
        { SortOnFacts(init, f, descending); InsertWithKey(last, sorted, f, descending, v); }
        WithKey(sorted, f, v) + own;
        { SortOnStable(init, f, descending, v); }
        WithKey(init, f, v) + own;
        { assert WithKey([last], f, v) == own + WithKey([], f, v); }
        WithKey(init, f, v) + WithKey([last], f, v);
        { WithKeyAppend(init, [last], f, v); }
        WithKey(init + [last], f, v);
        { assert init + [last] == s; }
        WithKey(s, f, v);
      }
    }
  }

  // ---- selection and pruning --------------------------------------------------------

  /** The list without any occurrence of `id`, the others in order. */
  function RemoveAll(ids: seq<string>, id: string): seq<string>
  {
    if |ids| == 0 then [] else (if ids[0] == id then [] else [ids[0]]) + RemoveAll(ids[1..], id)
  }

  /** Unchecking removes every occurrence of the id and keeps every other entry, in order, with its multiplicity. */
  lemma {:induction false} RemoveAllFacts(ids: seq<string>, id: string)
    ensures id !in RemoveAll(ids, id)
    ensures forall x :: x != id ==> multiset(RemoveAll(ids, id))[x] == multiset(ids)[x]
    ensures |RemoveAll(ids, id)| == |ids| - multiset(ids)[id]
  {
    if |ids| > 0 {
      RemoveAllFacts(ids[1..], id);
      assert ids == [ids[0]] + ids[1..];
    }
  }

  /** The ids of the messages, in order. */
  function Ids(msgs: seq<ClientMessage>): (ids: seq<string>)
    ensures |ids| == |msgs| && forall j :: 0 <= j < |msgs| ==> ids[j] == msgs[j].messageId
  {
    seq(|msgs|, j requires 0 <= j < |msgs| => msgs[j].messageId)
  }

  /** The selection after unchecking each of `msgs` in turn. */
  function RemoveEach(ids: seq<string>, gone: seq<string>): seq<string>
    decreases |gone|
  {
    if |gone| == 0 then ids else RemoveEach(RemoveAll(ids, gone[0]), gone[1..])
  }

  lemma {:induction false} RemoveEachFacts(ids: seq<string>, gone: seq<string>)
    ensures forall x :: x in gone ==> x !in RemoveEach(ids, gone)
    ensures forall x :: x !in gone ==> multiset(RemoveEach(ids, gone))[x] == multiset(ids)[x]
    decreases |gone|
  {
    if |gone| > 0 {
      RemoveAllFacts(ids, gone[0]);
      RemoveEachFacts(RemoveAll(ids, gone[0]), gone[1..]);
      RemoveEachKeepsOut(RemoveAll(ids, gone[0]), gone[1..], gone[0]);
    }
  }

  lemma {:induction false} RemoveEachKeepsOut(ids: seq<string>, gone: seq<string>, x: string)
    requires x !in ids
    ensures x !in RemoveEach(ids, gone)
    decreases |gone|
  {
    if |gone| > 0 {
      RemoveAllSubset(ids, gone[0]);
      RemoveEachKeepsOut(RemoveAll(ids, gone[0]), gone[1..], x);
    }
  }

  lemma {:induction false} RemoveAllSubset(ids: seq<string>, id: string)
    ensures forall y :: y in RemoveAll(ids, id) ==> y in ids
  {
    if |ids| > 0 {
      RemoveAllSubset(ids[1..], id);
    }
  }

  /** The messages whose id is not selected, in order. */
  function Prune(msgs: seq<ClientMessage>, selected: seq<string>): seq<ClientMessage>
  {
    if |msgs| == 0 then []
    else (if msgs[0].messageId in selected then [] else [msgs[0]]) + Prune(msgs[1..], selected)
  }

  /** Pruning keeps exactly the messages whose id is not selected, with their multiplicity. */
  lemma {:induction false} PruneFacts(msgs: seq<ClientMessage>, selected: seq<string>)
    ensures forall m: ClientMessage :: m in Prune(msgs, selected) ==> m.messageId !in selected
    ensures forall m: ClientMessage :: m.messageId !in selected ==> multiset(Prune(msgs, selected))[m] == multiset(msgs)[m]
  {
    if |msgs| > 0 {
      PruneFacts(msgs[1..], selected);
      assert msgs == [msgs[0]] + msgs[1..];
    }
  }

  /** Every message checked or unchecked. */
  function WithChecked(msgs: seq<ClientMessage>, checked: bool): (r: seq<ClientMessage>)
    ensures |r| == |msgs| && forall j :: 0 <= j < |msgs| ==> r[j] == msgs[j].(isChecked := checked)
  {
    seq(|msgs|, j requires 0 <= j < |msgs| => msgs[j].(isChecked := checked))
  }

  /** The loop of `setupFilters`: header names in first-seen order, and the rows they are laid out in. */
  method HeaderLayout(msgs: seq<ClientMessage>) returns (names: seq<string>, rows: seq<seq<string>>)
    ensures names == Dedup(AllKeys(msgs))
    ensures rows == Rows(names)
  {
    names := [];
    rows := [];
    var headerSet: set<string> := {};
    var currRow: seq<string> := [];
    var col, row, k := 0, 0, 0;
    for i := 0 to |msgs|
      invariant names == Dedup(AllKeys(msgs[..i]))
      invariant (forall x :: x in headerSet <==> x in names)
      invariant k == |names| && col == |currRow| && row == |rows|
      invariant rows + [currRow] == Rows(names)
    {
      names, headerSet, rows, currRow, col, row, k :=
        AddHeaderKeys(AllKeys(msgs[..i]), msgs[i].headerKeys, names, headerSet, rows, currRow, col, row, k);
      assert msgs[..i + 1][..i] == msgs[..i];
    }
    assert msgs[..|msgs|] == msgs;
    rows := rows + [currRow];
  }

  /** One pass of the inner loop of `setupFilters`: a new name is recorded and placed, a seen one skipped. */
  method AddHeaderKey(ghost seen: seq<string>, key: string, names0: seq<string>, headerSet0: set<string>,
      rows0: seq<seq<string>>, currRow0: seq<string>, col0: nat, row0: nat, k0: nat)
    returns (names: seq<string>, headerSet: set<string>, rows: seq<seq<string>>, currRow: seq<string>, col: nat, row: nat, k: nat)
    requires names0 == Dedup(seen) && (forall x :: x in headerSet0 <==> x in names0)
    requires k0 == |names0| && col0 == |currRow0| && row0 == |rows0| && rows0 + [currRow0] == Rows(names0)
    ensures names == Dedup(seen + [key]) && (forall x :: x in headerSet <==> x in names)
    ensures k == |names| && col == |currRow| && row == |rows| && rows + [currRow] == Rows(names)
  {
    names, headerSet, rows, currRow, col, row, k := names0, headerSet0, rows0, currRow0, col0, row0, k0;
    DedupSnoc(seen, key);
    if key in headerSet {
      return;
    }
    RowsStep(rows, currRow, names, key);
    names := names + [key];
    headerSet := headerSet + {key};
    k := k + 1;
    if col >= 3 {
      col := 0;
      rows := rows + [currRow];
      row := row + 1;
      currRow := [];
    }
    assert currRow == [] ==> currRow + [key] == [key];
    currRow := currRow + [key];
    col := col + 1;
  }

  /** The inner loop of `setupFilters`: one message's header names. */
  method AddHeaderKeys(ghost before: seq<string>, keys: seq<string>, names0: seq<string>, headerSet0: set<string>,
      rows0: seq<seq<string>>, currRow0: seq<string>, col0: nat, row0: nat, k0: nat)
    returns (names: seq<string>, headerSet: set<string>, rows: seq<seq<string>>, currRow: seq<string>, col: nat, row: nat, k: nat)
    requires names0 == Dedup(before) && (forall x :: x in headerSet0 <==> x in names0)
    requires k0 == |names0| && col0 == |currRow0| && row0 == |rows0| && rows0 + [currRow0] == Rows(names0)
    ensures names == Dedup(before + keys) && (forall x :: x in headerSet <==> x in names)
    ensures k == |names| && col == |currRow| && row == |rows| && rows + [currRow] == Rows(names)
  {
    names, headerSet, rows, currRow, col, row, k := names0, headerSet0, rows0, currRow0, col0, row0, k0;
    assert before + keys[..0] == before;
    for j := 0 to |keys|
      invariant names == Dedup(before + keys[..j])
      invariant (forall x :: x in headerSet <==> x in names)
      invariant k == |names| && col == |currRow| && row == |rows|
      invariant rows + [currRow] == Rows(names)
    {
      assert before + keys[..j + 1] == (before + keys[..j]) + [keys[j]];
      names, headerSet, rows, currRow, col, row, k :=
        AddHeaderKey(before + keys[..j], keys[j], names, headerSet, rows, currRow, col, row, k);
    }
    assert keys[..|keys|] == keys;
  }

  lemma IdsAt(msgs: seq<ClientMessage>, j: nat)
    requires j < |msgs|
    ensures Ids(msgs)[..j + 1] == Ids(msgs)[..j] + [msgs[j].messageId]
    ensures Ids(msgs)[j..][0] == msgs[j].messageId && Ids(msgs)[j..][1..] == Ids(msgs)[j + 1..]
  {
  }

  /** The only direction values the sort keeps, and a column whenever it sorts. */
  predicate SortStateOk(direction: int, key: Option<SortField>)
  {
    0 <= direction <= 2 && (direction == 0 <==> key.None?)
  }

  class MessageList {
    var messages: seq<ClientMessage>
    var filteredMessages: seq<ClientMessage>
    var selectedMessageIds: seq<string>
    var queueName: Option<string>
    var destinationQueueName: Option<string>
    var allChecked: bool
    var headerNames: seq<string>
    var filterRows: seq<seq<string>>
    var headerInputs: seq<Option<string>>
    var sortDirection: int
    var sortKey: Option<SortField>

    ghost predicate Valid()
      reads this
    {
      SortStateOk(sortDirection, sortKey)
    }

    /** The component as constructed and initialised: nothing shown, nothing selected, unsorted. */
    constructor (queueName: Option<string>)
      ensures Valid()
      ensures messages == [] && filteredMessages == [] && selectedMessageIds == [] && !allChecked
      ensures this.queueName == queueName && destinationQueueName.None?
      ensures sortDirection == 0 && sortKey.None?
    {
      messages := [];
      filteredMessages := [];
      selectedMessageIds := [];
      this.queueName := queueName;
      destinationQueueName := None;
      allChecked := false;
      headerNames := [];
      filterRows := [];
      headerInputs := [];
      sortDirection := 0;
      sortKey := None;
    }

    /**
     * `setupFilters`: the header names of the messages, each once in
     * first-seen order, laid out three to a row, and one empty input per name.
     */
    method SetupFilters()
      modifies this
      ensures headerNames == Dedup(AllKeys(messages))
      ensures filterRows == Rows(headerNames)
      ensures |headerInputs| == |headerNames| && forall j :: 0 <= j < |headerInputs| ==> headerInputs[j].None?
      ensures messages == old(messages) && filteredMessages == old(filteredMessages)
      ensures selectedMessageIds == old(selectedMessageIds) && allChecked == old(allChecked)
      ensures sortDirection == old(sortDirection) && sortKey == old(sortKey)
      ensures queueName == old(queueName) && destinationQueueName == old(destinationQueueName)
    {
      var names, rows := HeaderLayout(messages);
      headerNames := names;
      filterRows := rows;
      headerInputs := seq(|names|, _ => None);
    }

    /** `updateCheckedMessages`: a checked message's id is appended; an unchecked one's is removed everywhere. */
    method UpdateCheckedMessages(message: ClientMessage)
      modifies this
      ensures selectedMessageIds == if message.isChecked then old(selectedMessageIds) + [message.messageId]
        else RemoveAll(old(selectedMessageIds), message.messageId)
      ensures messages == old(messages) && filteredMessages == old(filteredMessages) && allChecked == old(allChecked)
      ensures headerNames == old(headerNames) && filterRows == old(filterRows) && headerInputs == old(headerInputs)
      ensures sortDirection == old(sortDirection) && sortKey == old(sortKey)
      ensures queueName == old(queueName) && destinationQueueName == old(destinationQueueName)
    {
      if message.isChecked {
        selectedMessageIds := selectedMessageIds + [message.messageId];
      } else {
        selectedMessageIds := RemoveAll(selectedMessageIds, message.messageId);
      }
    }

    /**
     * `checkAll`: flip the toggle, give every message the new state, and
     * select or unselect each message's id in turn.
     */
    method CheckAll()
      modifies this
      ensures allChecked == !old(allChecked)
      ensures messages == WithChecked(old(messages), allChecked)
      ensures selectedMessageIds == if allChecked then old(selectedMessageIds) + Ids(old(messages))
        else RemoveEach(old(selectedMessageIds), Ids(old(messages)))
      ensures filteredMessages == old(filteredMessages)
      ensures sortDirection == old(sortDirection) && sortKey == old(sortKey)
      ensures headerNames == old(headerNames) && filterRows == old(filterRows) && headerInputs == old(headerInputs)
      ensures queueName == old(queueName) && destinationQueueName == old(destinationQueueName)
    {
      allChecked := !allChecked;
      ghost var original := messages;
      ghost var selected0 := selectedMessageIds;
      for j := 0 to |messages|
        invariant |messages| == |original|
        invariant forall i :: 0 <= i < j ==> messages[i] == original[i].(isChecked := allChecked)
        invariant forall i :: j <= i < |messages| ==> messages[i] == original[i]
        invariant allChecked == !old(allChecked) && filteredMessages == old(filteredMessages)
        invariant sortDirection == old(sortDirection) && sortKey == old(sortKey)
        invariant Layout() == old(Layout())
        invariant allChecked ==> selectedMessageIds == selected0 + Ids(original)[..j]
        invariant !allChecked ==> RemoveEach(selectedMessageIds, Ids(original)[j..]) == RemoveEach(selected0, Ids(original))
      {
        messages := messages[j := messages[j].(isChecked := allChecked)];
        IdsAt(original, j);
        UpdateCheckedMessages(messages[j]);
      }
      assert Ids(original)[..|original|] == Ids(original);
    }

    /** The queue names and the header filters, which neither a selection nor a sort changes. */
    ghost function Layout(): (Option<string>, Option<string>, seq<string>, seq<seq<string>>, seq<Option<string>>)
      reads this
    {
      (queueName, destinationQueueName, headerNames, filterRows, headerInputs)
    }

    /** The move guard: a destination, different from the current queue, and at least one selected message. */
    predicate MoveAllowed()
      reads this
    {
      destinationQueueName.Some? && destinationQueueName != queueName && |selectedMessageIds| > 0
    }

    /**
     * `moveMessages`: when the guard passes and the user confirms, the
     * request is sent (`requested`); when its answer arrives, the selected
     * messages leave the list.
     */
    method MoveMessages(confirmed: bool, answered: bool) returns (requested: bool)
      modifies this
      ensures requested <==> old(MoveAllowed()) && confirmed
      ensures messages == if requested && answered then Prune(old(messages), selectedMessageIds) else old(messages)
      ensures selectedMessageIds == old(selectedMessageIds) && filteredMessages == old(filteredMessages)
      ensures sortDirection == old(sortDirection) && sortKey == old(sortKey)
      ensures allChecked == old(allChecked)
      ensures headerNames == old(headerNames) && filterRows == old(filterRows) && headerInputs == old(headerInputs)
      ensures queueName == old(queueName) && destinationQueueName == old(destinationQueueName)
    {
      requested := false;
      if !MoveAllowed() {
        return;
      }
      if confirmed {
        requested := true;
        if answered {
          messages := Prune(messages, selectedMessageIds);
        }
      }
    }

    /** `deleteMessages`: no guard; a confirmed request's answer prunes the selected messages. */
    method DeleteMessages(confirmed: bool, answered: bool) returns (requested: bool)
      modifies this
      ensures requested == confirmed
      ensures messages == if requested && answered then Prune(old(messages), selectedMessageIds) else old(messages)
      ensures selectedMessageIds == old(selectedMessageIds) && filteredMessages == old(filteredMessages)
      ensures sortDirection == old(sortDirection) && sortKey == old(sortKey)
      ensures allChecked == old(allChecked)
      ensures headerNames == old(headerNames) && filterRows == old(filterRows) && headerInputs == old(headerInputs)
      ensures queueName == old(queueName) && destinationQueueName == old(destinationQueueName)
    {
      requested := confirmed;
      if confirmed && answered {
        messages := Prune(messages, selectedMessageIds);
      }
    }

    /** `sort`: direction 1 ascending, 2 descending, anything else resets the sort. */
    method Sort()
      requires Valid() || sortDirection > 2
      requires sortDirection == 1 || sortDirection == 2 ==> sortKey.Some?
      modifies this
      ensures Valid()
      ensures old(sortDirection) == 1 ==> filteredMessages == SortOn(old(filteredMessages), old(sortKey).value, false)
      ensures old(sortDirection) == 2 ==> filteredMessages == SortOn(old(filteredMessages), old(sortKey).value, true)
      ensures old(sortDirection) != 1 && old(sortDirection) != 2 ==>
        (filteredMessages == old(filteredMessages) && sortDirection == 0 && sortKey.None?)
      ensures old(sortDirection) == 1 || old(sortDirection) == 2 ==>
        (sortDirection == old(sortDirection) && sortKey == old(sortKey))
      ensures messages == old(messages) && selectedMessageIds == old(selectedMessageIds)
      ensures allChecked == old(allChecked)
      ensures headerNames == old(headerNames) && filterRows == old(filterRows) && headerInputs == old(headerInputs)
      ensures queueName == old(queueName) && destinationQueueName == old(destinationQueueName)
    {
      if sortDirection == 1 {
        filteredMessages := SortOn(filteredMessages, sortKey.value, false);
      } else if sortDirection == 2 {
        filteredMessages := SortOn(filteredMessages, sortKey.value, true);
      } else {
        sortDirection := 0;
        sortKey := None;
      }
    }

    /**
     * `sortBy`: choosing a column steps the direction through ascending,
     * descending and unsorted, and sorts accordingly.
     */
    method SortBy(key: SortField)
      requires Valid()
      modifies this
      ensures Valid()
      ensures sortDirection == (old(sortDirection) + 1) % 3
      ensures sortDirection == 0 ==> filteredMessages == old(filteredMessages) && sortKey.None?
      ensures sortDirection != 0 ==>
        (sortKey == Some(key) && filteredMessages == SortOn(old(filteredMessages), key, sortDirection == 2))
      ensures messages == old(messages) && selectedMessageIds == old(selectedMessageIds)
      ensures allChecked == old(allChecked)
      ensures headerNames == old(headerNames) && filterRows == old(filterRows) && headerInputs == old(headerInputs)
      ensures queueName == old(queueName) && destinationQueueName == old(destinationQueueName)
    {
      sortKey := Some(key);
      sortDirection := sortDirection + 1;
      Sort();
    }
  }
}
