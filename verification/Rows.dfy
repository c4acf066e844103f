/** Lists of rows, whatever a row is: removing, inserting and shifting them. */
module Rows {

  /** The list of f(0), f(1), ... of length n. */
  function Tabulate<T>(n: nat, f: nat -> T): (r: seq<T>)
    ensures |r| == n
  {
    if n == 0 then [] else Tabulate(n - 1, f) + [f(n - 1)]
  }

  lemma {:induction false} Tabulates<T>(n: nat, f: nat -> T)
    ensures forall i: nat :: i < n ==> Tabulate(n, f)[i] == f(i)
  {
    if n > 0 {
      Tabulates(n - 1, f);
    }
  }

  // Element `i` of a list that goes on with blanks for ever.
  function At<T>(rows: seq<T>, i: nat, blank: T): T {
    if i < |rows| then rows[i] else blank
  }

  /** `count` rows from row `start` on. */
  function Window<T>(rows: seq<T>, start: nat, count: nat, blank: T): (r: seq<T>)
    ensures |r| == count
  {
    if count == 0 then [] else Window(rows, start, count - 1, blank) + [At(rows, start + count - 1, blank)]
  }

  lemma {:induction false} WindowAt<T>(rows: seq<T>, start: nat, count: nat, i: nat, blank: T)
    requires i < count
    ensures Window(rows, start, count, blank)[i] == At(rows, start + i, blank)
  {
    if i < count - 1 {
      WindowAt(rows, start, count - 1, i, blank);
    }
  }

  lemma Windows<T>(rows: seq<T>, start: nat, count: nat, blank: T)
    ensures var r := Window(rows, start, count, blank);
      forall i :: 0 <= i < count ==> r[i] == At(rows, start + i, blank)
  {
    forall i | 0 <= i < count { WindowAt(rows, start, count, i, blank); }
  }

  // `n` times the same.
  function Fill<T>(n: nat, item: T): (r: seq<T>)
    ensures |r| == n
  {
    seq(n, _ => item)
  }

  function Remove<T>(rows: seq<T>, p: nat): (r: seq<T>)
    ensures |r| == if p < |rows| then |rows| - 1 else |rows|
  {
    if p < |rows| then rows[..p] + rows[p + 1..] else rows
  }

  function Insert<T>(rows: seq<T>, q: nat, row: T): (r: seq<T>)
    ensures |r| == |rows| + 1
  {
    if q < |rows| then rows[..q] + [row] + rows[q..] else rows + [row]
  }

  // `rows` without the up to `n` rows from index `p` on.
  function Without<T>(rows: seq<T>, p: nat, n: nat): (r: seq<T>)
    ensures |r| == if |rows| <= p then |rows| else if |rows| <= p + n then p else |rows| - n
  {
    if n == 0 then rows else Remove(Without(rows, p, n - 1), p)
  }

  // `rows` with `n` copies of `row` put before index `q`, or at the end.
  function With<T>(rows: seq<T>, q: nat, n: nat, row: T): (r: seq<T>)
    ensures |r| == |rows| + n
  {
    if n == 0 then rows else Insert(With(rows, q, n - 1, row), q, row)
  }

  lemma {:induction false} WithAtEnd<T>(rows: seq<T>, n: nat, row: T)
    ensures With(rows, |rows|, n, row) == rows + Fill(n, row)
  {
    if n > 0 {
      WithAtEnd(rows, n - 1, row);
    }
  }

  lemma {:induction false} WithoutDone<T>(rows: seq<T>, p: nat, n: nat, m: nat)
    requires n <= m && |Without(rows, p, n)| <= p
    ensures Without(rows, p, m) == Without(rows, p, n)
  {
    if n < m {
      WithoutDone(rows, p, n, m - 1);
    }
  }

  // `b` is `a` without the `n` rows from index `p` on.
  ghost predicate Closed<T(!new)>(a: seq<T>, b: seq<T>, p: nat, n: nat, blank: T) {
    forall i: nat {:trigger At(b, i, blank)} :: At(b, i, blank) == At(a, if i < p then i else i + n, blank)
  }

  // `b` is `a` with `n` blank rows before index `q`.
  ghost predicate Opened<T(!new)>(a: seq<T>, b: seq<T>, q: nat, n: nat, blank: T) {
    forall i: nat {:trigger At(b, i, blank)} :: At(b, i, blank)
      == (if i < q then At(a, i, blank) else if i < q + n then blank else At(a, i - n, blank))
  }

  lemma {:induction false} WithoutCloses<T(!new)>(rows: seq<T>, p: nat, n: nat, blank: T)
    ensures Closed(rows, Without(rows, p, n), p, n, blank)
  {
    if n > 0 {
      var rest := Without(rows, p, n - 1);
      WithoutCloses(rows, p, n - 1, blank);
      RemoveCloses(rest, p, blank);
    }
  }

  lemma RemoveCloses<T(!new)>(rows: seq<T>, p: nat, blank: T)
    ensures Closed(rows, Remove(rows, p), p, 1, blank)
  {
  }

  lemma {:induction false} WithOpens<T(!new)>(rows: seq<T>, q: nat, n: nat, blank: T)
    ensures Opened(rows, With(rows, q, n, blank), q, n, blank)
  {
    if n > 0 {
      var rest := With(rows, q, n - 1, blank);
      WithOpens(rows, q, n - 1, blank);
      InsertOpens(rest, q, blank);
    }
  }

  lemma InsertOpens<T(!new)>(rows: seq<T>, q: nat, blank: T)
    ensures Opened(rows, Insert(rows, q, blank), q, 1, blank)
  {
  }

  // A page that ends above `q` needs no blank rows there.
  lemma OpensPastEnd<T(!new)>(rows: seq<T>, q: nat, n: nat, blank: T)
    requires |rows| <= q
    ensures Opened(rows, rows, q, n, blank)
  {
  }

  /** Rows [y, y+h) moved to [y+inc, y+inc+h); what they leave behind, and what
      lies between, turns blank; all other rows stay. */
  function Shift<T>(rows: seq<T>, y: nat, h: nat, inc: int, blank: T): (r: seq<T>)
    ensures |r| == |rows|
  {
    Tabulate(|rows|, i => ShiftedRow(rows, y, h, inc, blank, i))
  }

  function ShiftedRow<T>(rows: seq<T>, y: nat, h: nat, inc: int, blank: T, i: nat): T {
    if y + inc <= i < y + inc + h then (if i < inc then blank else At(rows, i - inc, blank))
    else if y <= i < y + inc || y + inc + h <= i < y + h then blank
    else At(rows, i, blank)
  }

  lemma ShiftAt<T>(rows: seq<T>, y: nat, h: nat, inc: int, blank: T)
    ensures forall i: nat :: i < |rows| ==> Shift(rows, y, h, inc, blank)[i] == ShiftedRow(rows, y, h, inc, blank, i)
  {
    Tabulates(|rows|, i => ShiftedRow(rows, y, h, inc, blank, i));
  }

  // Windows are equal when the rows they show are.
  lemma SameWindow<T>(a: seq<T>, b: seq<T>, start: nat, count: nat, blank: T)
    requires forall i: nat :: i < start + count ==> At(a, i, blank) == At(b, i, blank)
    ensures Window(a, start, count, blank) == Window(b, start, count, blank)
  {
    Windows(a, start, count, blank);
    Windows(b, start, count, blank);
  }

  lemma ShiftedWindow<T>(rows: seq<T>, after: seq<T>, n: nat, y: nat, h: nat, inc: int, blank: T, height: nat)
    requires 0 <= y + inc && y + h <= height && y + h + inc <= height
    requires forall i: nat :: i < height ==>
      At(after, n + i, blank) == ShiftedRow(Window(rows, n, height, blank), y, h, inc, blank, i)
    ensures Window(after, n, height, blank) == Shift(Window(rows, n, height, blank), y, h, inc, blank)
  {
    Windows(after, n, height, blank);
    ShiftAt(Window(rows, n, height, blank), y, h, inc, blank);
  }

  lemma MovedRow<T(!new)>(rows: seq<T>, rest: seq<T>, after: seq<T>, n: nat, p: nat, q: nat, y: nat, h: nat,
                          inc: int, count: nat, blank: T, height: nat, i: nat)
    requires Closed(rows, rest, p, count, blank) && Opened(rest, after, q, count, blank)
    requires 0 <= y + inc && y + h <= height && y + h + inc <= height && i < height
    requires (inc <= 0 && count == -inc && p == n + y + inc && q == n + y + h + inc)
             || (inc >= 0 && count == inc && p == n + y + h && q == n + y)
    ensures At(after, n + i, blank) == ShiftedRow(Window(rows, n, height, blank), y, h, inc, blank, i)
  {
    OpenedAt(rest, after, q, count, blank, n + i);
    ClosedAt(rows, rest, p, count, blank, n + i);
    if n + i >= count {
      ClosedAt(rows, rest, p, count, blank, n + i - count);
    }
    WindowAt(rows, n, height, i, blank);
    if 0 <= i - inc < height {
      WindowAt(rows, n, height, i - inc, blank);
    }
  }

  lemma OpenedAt<T(!new)>(a: seq<T>, b: seq<T>, q: nat, n: nat, blank: T, i: nat)
    requires Opened(a, b, q, n, blank)
    ensures At(b, i, blank) == if i < q then At(a, i, blank) else if i < q + n then blank else At(a, i - n, blank)
  {
  }

  lemma ClosedAt<T(!new)>(a: seq<T>, b: seq<T>, p: nat, n: nat, blank: T, i: nat)
    requires Closed(a, b, p, n, blank)
    ensures At(b, i, blank) == At(a, if i < p then i else i + n, blank)
  {
  }

  /** Deleting the rows above a region and opening blank ones below it shifts
      the region up. */
  lemma ShiftUp<T(!new)>(rows: seq<T>, rest: seq<T>, after: seq<T>, n: nat, y: nat, h: nat, inc: nat, blank: T,
                         height: nat)
    requires inc <= y && y + h <= height
    requires Closed(rows, rest, n + y - inc, inc, blank) && Opened(rest, after, n + y + h - inc, inc, blank)
    ensures Window(after, 0, n, blank) == Window(rows, 0, n, blank)
    ensures Window(after, n, height, blank) == Shift(Window(rows, n, height, blank), y, h, 0 - inc, blank)
  {
    var up := 0 - inc;
    forall i: nat | i < height {
      MovedRow(rows, rest, after, n, n + y - inc, n + y + h - inc, y, h, up, inc, blank, height, i);
    }
    ShiftedWindow(rows, after, n, y, h, up, blank, height);
    SameWindow(rows, after, 0, n, blank);
  }

  /** Deleting the rows below a region and opening blank ones above it shifts
      the region down. */
  lemma ShiftDown<T(!new)>(rows: seq<T>, rest: seq<T>, after: seq<T>, n: nat, y: nat, h: nat, inc: nat, blank: T,
                           height: nat)
    requires y + h + inc <= height
    requires Closed(rows, rest, n + y + h, inc, blank) && Opened(rest, after, n + y, inc, blank)
    ensures Window(after, 0, n, blank) == Window(rows, 0, n, blank)
    ensures Window(after, n, height, blank) == Shift(Window(rows, n, height, blank), y, h, inc, blank)
  {
    forall i: nat | i < height {
      MovedRow(rows, rest, after, n, n + y + h, n + y, y, h, inc, inc, blank, height, i);
    }
    ShiftedWindow(rows, after, n, y, h, inc, blank, height);
    SameWindow(rows, after, 0, n, blank);
  }

  function Last<T>(s: seq<T>, n: nat): (r: seq<T>)
    ensures |r| <= n && |r| <= |s|
  {
    if |s| <= n then s else s[|s| - n..]
  }

  lemma DropAt<T>(rows: seq<T>, drop: nat, i: nat, blank: T)
    requires drop <= |rows|
    ensures At(rows[drop..], i, blank) == At(rows, i + drop, blank)
  {
  }

  /** Blank rows appended to a full page: the rows pushed off its top join the
      rows above it, of which only the newest `limit` stay. */
  lemma ScrolledUpBack<T(!new)>(rows: seq<T>, longer: seq<T>, n: nat, inc: nat, limit: nat, drop: nat, blank: T,
                                height: nat)
    requires |rows| == n + height && inc <= height && |longer| == |rows| + inc
    requires Opened(rows, longer, |rows|, inc, blank)
    requires drop == if n + inc > limit then n + inc - limit else 0
    ensures Window(longer[drop..], 0, n + inc - drop, blank)
            == Last(Window(rows, 0, n, blank) + Window(rows, n, height, blank)[..inc], limit)
  {
    var all := Window(rows, 0, n, blank) + Window(rows, n, height, blank)[..inc];
    forall i | 0 <= i < n + inc
      ensures all[i] == At(rows, i, blank)
    {
      if i < n {
        WindowAt(rows, 0, n, i, blank);
      } else {
        WindowAt(rows, n, height, i - n, blank);
      }
    }
    var back := Window(longer[drop..], 0, n + inc - drop, blank);
    forall i | 0 <= i < n + inc - drop
      ensures back[i] == At(rows, i + drop, blank)
    {
      WindowAt(longer[drop..], 0, n + inc - drop, i, blank);
      DropAt(longer, drop, i, blank);
      assert At(longer, i + drop, blank) == At(rows, i + drop, blank);
    }
    assert back == all[drop..];
  }

  lemma ScrolledUpRows<T(!new)>(rows: seq<T>, longer: seq<T>, n: nat, inc: nat, drop: nat, blank: T, height: nat)
    requires |rows| == n + height && inc <= height && |longer| == |rows| + inc && drop <= n + inc
    requires Opened(rows, longer, |rows|, inc, blank)
    ensures Window(longer[drop..], n + inc - drop, height, blank)
            == Window(rows, n, height, blank)[inc..] + Fill(inc, blank)
  {
    var shown, shown' := Window(rows, n, height, blank), Window(longer[drop..], n + inc - drop, height, blank);
    forall i | 0 <= i < height
      ensures shown'[i] == At(rows, n + inc + i, blank)
    {
      WindowAt(longer[drop..], n + inc - drop, height, i, blank);
      DropAt(longer, drop, n + inc - drop + i, blank);
      assert At(longer, n + inc + i, blank) == At(rows, n + inc + i, blank);
    }
    forall i | 0 <= i < height - inc
      ensures shown'[i] == shown[inc..][i]
    {
      WindowAt(rows, n, height, inc + i, blank);
    }
  }
}
