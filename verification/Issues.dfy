/** Machine-readable findings (domain/models.py) and the texts used as keys. */
module Issues {

  datatype Code =
    | SqlParseFailed | UnknownTable | UnknownColumn | SelectStarForbidden | DeniedFunction
    | NonReadOnlyStatement | ForbiddenStatement | MultipleStatements | CommentPresent
    | SystemCatalogAccess | CrossDatabaseAccess | SchemaNotAllowed
    | ColumnDenied | TableDenied | TableNotAllowed
    | CartesianProduct | TooManyJoins | SubqueryTooDeep | TooManyColumns | EstimatedCostTooHigh

  /** `location` is "" when the source gives none. */
  datatype Issue = Issue(code: Code, message: string, location: string)

  function Codes(issues: seq<Issue>): set<Code> {
    set i | i in issues :: i.code
  }

  lemma CodesAppend(a: seq<Issue>, b: seq<Issue>)
    ensures Codes(a + b) == Codes(a) + Codes(b)
  {
  }

  // ----- sorted lists without repetition (`sorted(set(...))`) -----

  predicate Before(a: string, b: string) {
    if |b| == 0 then false
    else if |a| == 0 then true
    else a[0] < b[0] || (a[0] == b[0] && Before(a[1..], b[1..]))
  }

  lemma {:induction false} BeforeOrder(a: string, b: string, c: string)
    ensures !Before(a, a)
    ensures Before(a, b) && Before(b, c) ==> Before(a, c)
    ensures a != b ==> Before(a, b) || Before(b, a)
  {
    if |a| != 0 {
      BeforeOrder(a[1..], if |b| == 0 then b else b[1..], if |c| == 0 then c else c[1..]);
      if |b| != 0 && a[0] == b[0] && a[1..] == b[1..] {
        assert a == [a[0]] + a[1..] == b;
      }
    }
  }

  function Insert(xs: seq<string>, x: string): seq<string> {
    if |xs| == 0 then [x]
    else if xs[0] == x then xs
    else if Before(x, xs[0]) then [x] + xs
    else [xs[0]] + Insert(xs[1..], x)
  }

  lemma {:induction false} InsertMember(xs: seq<string>, x: string, y: string)
    ensures y in Insert(xs, x) <==> y in xs || y == x
  {
    if |xs| != 0 {
      InsertMember(xs[1..], x, y);
      assert xs == [xs[0]] + xs[1..];
    }
  }

  // ----- `table.column` references -----

  /** `text.partition(".")`: what precedes the first dot, and what follows it. */
  function Partition(text: string): (string, string) {
    if |text| == 0 then ("", "")
    else if text[0] == '.' then ("", text[1..])
    else var (head, tail) := Partition(text[1..]); ([text[0]] + head, tail)
  }

  function Reference(table: string, column: string): string {
    table + "." + column
  }

  /** A reference splits back into its parts exactly when the table name has no dot. */
  lemma {:induction false} PartitionReference(table: string, column: string)
    ensures Partition(Reference(table, column)) == (table, column) <==> '.' !in table
  {
    var text := Reference(table, column);
    if |table| == 0 {
      assert text[1..] == column;
    } else {
      assert text[0] == table[0];
      assert text[1..] == Reference(table[1..], column);
      PartitionReference(table[1..], column);
      assert table == [table[0]] + table[1..];
    }
  }

  /** The first dot separates the two parts; without a dot the second part is empty. */
  predicate SplitsAtDot(text: string, head: string, tail: string) {
    '.' !in head && (text == head + "." + tail || (text == head && tail == ""))
  }

  lemma {:induction false} PartitionExactly(text: string, head: string, tail: string)
    ensures Partition(text) == (head, tail) <==> SplitsAtDot(text, head, tail)
  {
    if |text| == 0 {
    } else if text[0] == '.' {
      if SplitsAtDot(text, head, tail) {
        assert head == "";
      }
      assert text == "" + "." + text[1..];
    } else {
      var (h, t) := Partition(text[1..]);
      PartitionExactly(text[1..], h, t);
      SplitsOneWay(text, [text[0]] + h, t, head, tail);
    }
  }

  lemma HeadIsFirst(text: string, head: string, tail: string)
    requires SplitsAtDot(text, head, tail)
    ensures |head| <= |text| && head == text[..|head|] && (forall i :: 0 <= i < |head| ==> text[i] != '.')
    ensures |head| < |text| ==> text[|head|] == '.' && tail == text[|head| + 1..]
    ensures |head| == |text| ==> tail == ""
  {
    forall i | 0 <= i < |head|
      ensures text[i] != '.'
    {
      assert text[i] == head[i];
    }
  }

  lemma SplitsOneWay(text: string, h: string, t: string, head: string, tail: string)
    requires SplitsAtDot(text, h, t)
    ensures SplitsAtDot(text, head, tail) <==> head == h && tail == t
  {
    HeadIsFirst(text, h, t);
    if SplitsAtDot(text, head, tail) {
      HeadIsFirst(text, head, tail);
      assert |head| == |h|;
    }
  }

  /** Earlier in the order of the alphabet: a proper beginning, or smaller at the first difference. */
  ghost predicate Alphabetical(a: string, b: string) {
    exists k :: 0 <= k <= |a| && k < |b| && a[..k] == b[..k] && (k == |a| || a[k] < b[k])
  }

  lemma AlphabeticalHead(a: string, b: string)
    requires Alphabetical(a, b)
    ensures |b| != 0 && (|a| == 0 || a[0] < b[0] || (a[0] == b[0] && Alphabetical(a[1..], b[1..])))
  {
    var k :| 0 <= k <= |a| && k < |b| && a[..k] == b[..k] && (k == |a| || a[k] < b[k]);
    if k > 0 {
      assert a[0] == a[..k][0] && b[0] == b[..k][0];
      assert a[1..][..k - 1] == a[..k][1..] && b[1..][..k - 1] == b[..k][1..];
    }
  }

  lemma AlphabeticalTail(a: string, b: string)
    requires |a| != 0 && |b| != 0 && a[0] == b[0] && Alphabetical(a[1..], b[1..])
    ensures Alphabetical(a, b)
  {
    var c, d := a[1..], b[1..];
    var k :| 0 <= k <= |c| && k < |d| && c[..k] == d[..k] && (k == |c| || c[k] < d[k]);
    assert a[..k + 1] == [a[0]] + c[..k] && b[..k + 1] == [b[0]] + d[..k];
    assert a[..k + 1] == b[..k + 1];
  }

  lemma AlphabeticalStep(a: string, b: string)
    ensures Alphabetical(a, b) <==>
      |b| != 0 && (|a| == 0 || a[0] < b[0] || (a[0] == b[0] && Alphabetical(a[1..], b[1..])))
  {
    if Alphabetical(a, b) {
      AlphabeticalHead(a, b);
    } else if |a| != 0 && |b| != 0 && a[0] == b[0] && Alphabetical(a[1..], b[1..]) {
      AlphabeticalTail(a, b);
    }
  }

  lemma {:induction false} BeforeExactly(a: string, b: string)
    ensures Before(a, b) <==> Alphabetical(a, b)
  {
    AlphabeticalStep(a, b);
    if |a| != 0 && |b| != 0 {
      BeforeExactly(a[1..], b[1..]);
    }
  }
}
