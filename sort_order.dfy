/** Composite row ordering of the order-by operator: a list of sort keys, each a
    channel with an ascending or descending direction and a nulls-first or nulls-last
    placement, compared left to right, with later keys breaking ties only. */
module SortOrdering {

  /** The column types the order-by operator buffers. */
  datatype Type = Bigint | Double | Varchar

  /** A column value. DOUBLE values are carried by bit pattern as payload only. */
  datatype Value = Null | BigintValue(long: int) | DoubleValue(bits: bv64) | VarcharValue(chars: string)

  type Row = seq<Value>

  predicate HasType(v: Value, t: Type)
  {
    match v
    case Null => true
    case BigintValue(_) => t == Bigint
    case DoubleValue(_) => t == Double
    case VarcharValue(_) => t == Varchar
  }

  /** A row of a page with the given column types. */
  predicate Conforms(row: Row, types: seq<Type>)
  {
    |row| == |types| && forall i :: 0 <= i < |row| ==> HasType(row[i], types[i])
  }

  // ---------------------------------------------------------------------------
  // Natural orders of the column types
  // ---------------------------------------------------------------------------

  function CompareInts(a: int, b: int): (c: int)
    ensures c == -1 <==> a < b
    ensures c == 0 <==> a == b
    ensures c == 1 <==> a > b
  {
    if a < b then -1 else if a == b then 0 else 1
  }

  /** Lexicographic order of character strings; a proper prefix comes first. */
  function CompareStrings(a: string, b: string): (c: int)
    ensures -1 <= c <= 1
    ensures c == 0 <==> a == b
  {
    if a == [] && b == [] then 0
    else if a == [] then -1
    else if b == [] then 1
    else if a[0] < b[0] then -1
    else if a[0] > b[0] then 1
    else
      var c := CompareStrings(a[1..], b[1..]);
      assert c == 0 ==> a == [a[0]] + a[1..] && b == [b[0]] + b[1..];
      c
  }

  lemma {:induction false} CompareStringsAntisymmetric(a: string, b: string)
    ensures CompareStrings(a, b) == -CompareStrings(b, a)
  {
    if a != [] && b != [] && a[0] == b[0] {
      CompareStringsAntisymmetric(a[1..], b[1..]);
    }
  }

  lemma {:induction false} CompareStringsTransitive(a: string, b: string, c: string)
    requires CompareStrings(a, b) <= 0 && CompareStrings(b, c) <= 0
    ensures CompareStrings(a, c) <= 0
  {
    if a != [] && b != [] && c != [] && a[0] == b[0] && b[0] == c[0] {
      CompareStringsTransitive(a[1..], b[1..], c[1..]);
    }
  }

  /** Position of a value's type in the comparison of values of different types, which
      columns of one declared type never hold. */
  function TypeRank(v: Value): int
  {
    match v
    case Null => 0
    case BigintValue(_) => 1
    case DoubleValue(_) => 2
    case VarcharValue(_) => 3
  }

  /** Natural order of two non-null values: BIGINT numerically, VARCHAR
      lexicographically; DOUBLE payloads all compare equal. */
  function CompareValues(a: Value, b: Value): (c: int)
    ensures -1 <= c <= 1
  {
    if a.BigintValue? && b.BigintValue? then CompareInts(a.long, b.long)
    else if a.VarcharValue? && b.VarcharValue? then CompareStrings(a.chars, b.chars)
    else if a.DoubleValue? && b.DoubleValue? then 0
    else CompareInts(TypeRank(a), TypeRank(b))
  }

  lemma CompareValuesAntisymmetric(a: Value, b: Value)
    ensures CompareValues(a, b) == -CompareValues(b, a)
  {
    if a.VarcharValue? && b.VarcharValue? {
      CompareStringsAntisymmetric(a.chars, b.chars);
    }
  }

  lemma CompareValuesTransitive(a: Value, b: Value, c: Value)
    requires CompareValues(a, b) <= 0 && CompareValues(b, c) <= 0
    ensures CompareValues(a, c) <= 0
  {
    if a.VarcharValue? && b.VarcharValue? && c.VarcharValue? {
      CompareStringsTransitive(a.chars, b.chars, c.chars);
    }
  }

  // ---------------------------------------------------------------------------
  // Sort orders and keys
  // ---------------------------------------------------------------------------

  datatype SortOrder = SortOrder(ascending: bool, nullsFirst: bool)

  const AscNullsFirst := SortOrder(true, true)
  const AscNullsLast := SortOrder(true, false)
  const DescNullsFirst := SortOrder(false, true)
  const DescNullsLast := SortOrder(false, false)

  /** One key's comparison: the null placement first, whatever the direction, then the
      natural order, reversed when descending. */
  function CompareKey(order: SortOrder, a: Value, b: Value): (c: int)
    ensures -1 <= c <= 1
    ensures a.Null? && b.Null? ==> c == 0
    ensures a.Null? && !b.Null? ==> c == if order.nullsFirst then -1 else 1
    ensures !a.Null? && b.Null? ==> c == if order.nullsFirst then 1 else -1
  {
    if a.Null? && b.Null? then 0
    else if a.Null? then (if order.nullsFirst then -1 else 1)
    else if b.Null? then (if order.nullsFirst then 1 else -1)
    else
      var c := CompareValues(a, b);
      if order.ascending then c else -c
  }

  /** Reversing a key's direction reverses the comparison of two non-null values and
      leaves the placement of nulls alone. */
  lemma ReverseDirection(order: SortOrder, a: Value, b: Value)
    ensures var reversed := order.(ascending := !order.ascending);
            if a.Null? || b.Null? then CompareKey(reversed, a, b) == CompareKey(order, a, b)
            else CompareKey(reversed, a, b) == -CompareKey(order, a, b)
  {
  }

  lemma CompareKeyAntisymmetric(order: SortOrder, a: Value, b: Value)
    ensures CompareKey(order, a, b) == -CompareKey(order, b, a)
  {
    CompareValuesAntisymmetric(a, b);
  }

  lemma CompareKeyTransitive(order: SortOrder, a: Value, b: Value, c: Value)
    requires CompareKey(order, a, b) <= 0 && CompareKey(order, b, c) <= 0
    ensures CompareKey(order, a, c) <= 0
  {
    if !a.Null? && !b.Null? && !c.Null? {
      if order.ascending {
        CompareValuesTransitive(a, b, c);
      } else {
        CompareValuesAntisymmetric(a, b);
        CompareValuesAntisymmetric(b, c);
        CompareValuesAntisymmetric(a, c);
        CompareValuesTransitive(c, b, a);
      }
    }
  }

  datatype SortKey = SortKey(channel: nat, order: SortOrder)

  /** Pairs the sort channels with the sort orders, position by position. */
  function SortKeys(channels: seq<nat>, orders: seq<SortOrder>): (keys: seq<SortKey>)
    requires |channels| == |orders|
    ensures |keys| == |channels|
    ensures forall i :: 0 <= i < |keys| ==> keys[i] == SortKey(channels[i], orders[i])
  {
    if channels == [] then [] else [SortKey(channels[0], orders[0])] + SortKeys(channels[1..], orders[1..])
  }

  /** The value in a channel; rows of the declared types are wide enough for every
      channel the factory names, so the null past a row's end is never read by them. */
  function At(row: Row, channel: nat): Value
  {
    if channel < |row| then row[channel] else Null
  }

  /** The composite comparison: the first key that tells the rows apart decides. */
  function CompareRows(keys: seq<SortKey>, a: Row, b: Row): (c: int)
    ensures -1 <= c <= 1
  {
    if keys == [] then 0
    else
      var c := CompareKey(keys[0].order, At(a, keys[0].channel), At(b, keys[0].channel));
      if c != 0 then c else CompareRows(keys[1..], a, b)
  }

  lemma {:induction false} CompareRowsAntisymmetric(keys: seq<SortKey>, a: Row, b: Row)
    ensures CompareRows(keys, a, b) == -CompareRows(keys, b, a)
  {
    if keys != [] {
      CompareKeyAntisymmetric(keys[0].order, At(a, keys[0].channel), At(b, keys[0].channel));
      CompareRowsAntisymmetric(keys[1..], a, b);
    }
  }

  lemma {:induction false} CompareRowsTransitive(keys: seq<SortKey>, a: Row, b: Row, c: Row)
    requires CompareRows(keys, a, b) <= 0 && CompareRows(keys, b, c) <= 0
    ensures CompareRows(keys, a, c) <= 0
  {
    if keys != [] {
      var o, x, y, z := keys[0].order, At(a, keys[0].channel), At(b, keys[0].channel), At(c, keys[0].channel);
      var ab, bc, ac := CompareKey(o, x, y), CompareKey(o, y, z), CompareKey(o, x, z);
      CompareKeyTransitive(o, x, y, z);
      if ab == 0 && bc == 0 {
        CompareRowsTransitive(keys[1..], a, b, c);
        CompareKeyAntisymmetric(o, x, y);
        CompareKeyAntisymmetric(o, y, z);
        CompareKeyTransitive(o, z, y, x);
        CompareKeyAntisymmetric(o, x, z);
      } else if ac == 0 {
        // a and c tie on this key but one of ab, bc is strict: impossible
        CompareKeyAntisymmetric(o, x, z);
        CompareKeyAntisymmetric(o, x, y);
        CompareKeyAntisymmetric(o, y, z);
        if ab < 0 {
          CompareKeyTransitive(o, y, z, x);
        } else {
          CompareKeyTransitive(o, z, x, y);
        }
      }
    }
  }

  // ---------------------------------------------------------------------------
  // Sorting
  // ---------------------------------------------------------------------------

  /** Rows in non-descending order of the composite comparison. */
  predicate Sorted(keys: seq<SortKey>, rows: seq<Row>)
  {
    forall i, j :: 0 <= i < j < |rows| ==> CompareRows(keys, rows[i], rows[j]) <= 0
  }

  /** Inserts a row into sorted rows, before the first row it does not follow. */
  function Insert(keys: seq<SortKey>, x: Row, s: seq<Row>): (r: seq<Row>)
    ensures |r| == |s| + 1
  {
    if s == [] then [x]
    else if CompareRows(keys, x, s[0]) <= 0 then [x] + s
    else [s[0]] + Insert(keys, x, s[1..])
  }

  lemma {:induction false} InsertPermutation(keys: seq<SortKey>, x: Row, s: seq<Row>)
    ensures multiset(Insert(keys, x, s)) == multiset(s) + multiset{x}
  {
    if s != [] && CompareRows(keys, x, s[0]) > 0 {
      InsertPermutation(keys, x, s[1..]);
      assert s == [s[0]] + s[1..];
    }
  }

  /** A row that precedes x and every row of s precedes every row of the insertion. */
  lemma {:induction false} InsertLowerBound(keys: seq<SortKey>, y: Row, x: Row, s: seq<Row>)
    requires CompareRows(keys, y, x) <= 0
    requires forall j :: 0 <= j < |s| ==> CompareRows(keys, y, s[j]) <= 0
    ensures forall j :: 0 <= j < |s| + 1 ==> CompareRows(keys, y, Insert(keys, x, s)[j]) <= 0
  {
    if s != [] && CompareRows(keys, x, s[0]) > 0 {
      InsertLowerBound(keys, y, x, s[1..]);
      var r := Insert(keys, x, s);
      forall j | 0 < j < |r| ensures CompareRows(keys, y, r[j]) <= 0 {
        assert r[j] == Insert(keys, x, s[1..])[j - 1];
      }
    }
  }

  lemma {:induction false} InsertSorted(keys: seq<SortKey>, x: Row, s: seq<Row>)
    requires Sorted(keys, s)
    ensures Sorted(keys, Insert(keys, x, s))
  {
    if s != [] {
      if CompareRows(keys, x, s[0]) <= 0 {
        forall j | 0 < j < |s| ensures CompareRows(keys, x, s[j]) <= 0 {
          CompareRowsTransitive(keys, x, s[0], s[j]);
        }
      } else {
        var rest := Insert(keys, x, s[1..]);
        InsertSorted(keys, x, s[1..]);
        CompareRowsAntisymmetric(keys, x, s[0]);
        InsertLowerBound(keys, s[0], x, s[1..]);
        var r := [s[0]] + rest;
        forall i, j | 0 <= i < j < |r| ensures CompareRows(keys, r[i], r[j]) <= 0 {
          if i > 0 {
            assert r[i] == rest[i - 1] && r[j] == rest[j - 1];
          }
        }
      }
    }
  }

  /** Insertion sort of the rows: each row is inserted, last row first, into the sorted
      rest of the rows. */
  function SortRows(keys: seq<SortKey>, rows: seq<Row>): (r: seq<Row>)
    ensures |r| == |rows|
  {
    if rows == [] then [] else Insert(keys, rows[0], SortRows(keys, rows[1..]))
  }

  lemma {:induction false} SortRowsPermutation(keys: seq<SortKey>, rows: seq<Row>)
    ensures multiset(SortRows(keys, rows)) == multiset(rows)
  {
    if rows != [] {
      SortRowsPermutation(keys, rows[1..]);
      InsertPermutation(keys, rows[0], SortRows(keys, rows[1..]));
      assert rows == [rows[0]] + rows[1..];
    }
  }

  lemma {:induction false} SortRowsSorted(keys: seq<SortKey>, rows: seq<Row>)
    ensures Sorted(keys, SortRows(keys, rows))
  {
    if rows != [] {
      SortRowsSorted(keys, rows[1..]);
      InsertSorted(keys, rows[0], SortRows(keys, rows[1..]));
    }
  }

  // ---------------------------------------------------------------------------
  // Projection onto the output channels
  // ---------------------------------------------------------------------------

  predicate ChannelsWithin(channels: seq<nat>, width: nat)
  {
    forall k :: 0 <= k < |channels| ==> channels[k] < width
  }

  /** The row's values at the output channels, in output-channel order. */
  function Project(row: Row, channels: seq<nat>): (r: Row)
    ensures |r| == |channels|
    ensures forall k :: 0 <= k < |channels| ==> r[k] == At(row, channels[k])
  {
    seq(|channels|, k requires 0 <= k < |channels| => At(row, channels[k]))
  }

  function ProjectAll(rows: seq<Row>, channels: seq<nat>): (r: seq<Row>)
    ensures |r| == |rows|
    ensures forall i :: 0 <= i < |rows| ==> r[i] == Project(rows[i], channels)
  {
    if rows == [] then [] else [Project(rows[0], channels)] + ProjectAll(rows[1..], channels)
  }

  lemma ProjectAllAppend(a: seq<Row>, b: seq<Row>, channels: seq<nat>)
    ensures ProjectAll(a + b, channels) == ProjectAll(a, channels) + ProjectAll(b, channels)
  {
    var l, r := ProjectAll(a + b, channels), ProjectAll(a, channels) + ProjectAll(b, channels);
    forall i | 0 <= i < |l| ensures l[i] == r[i] {
      if i >= |a| {
        assert (a + b)[i] == b[i - |a|];
      }
    }
  }

  lemma {:induction false} ProjectInsert(keys: seq<SortKey>, channels: seq<nat>, x: Row, s: seq<Row>)
    ensures multiset(ProjectAll(Insert(keys, x, s), channels))
         == multiset(ProjectAll(s, channels)) + multiset{Project(x, channels)}
  {
    if s != [] && CompareRows(keys, x, s[0]) > 0 {
      ProjectInsert(keys, channels, x, s[1..]);
    }
  }

  /** Sorting only reorders: the projected output rows are those of the input rows,
      none lost or duplicated. */
  lemma {:induction false} ProjectSortPermutation(keys: seq<SortKey>, channels: seq<nat>, rows: seq<Row>)
    ensures multiset(ProjectAll(SortRows(keys, rows), channels)) == multiset(ProjectAll(rows, channels))
  {
    if rows != [] {
      ProjectSortPermutation(keys, channels, rows[1..]);
      ProjectInsert(keys, channels, rows[0], SortRows(keys, rows[1..]));
    }
  }

  function Reverse<T>(s: seq<T>): (r: seq<T>)
    ensures |r| == |s|
    ensures forall i :: 0 <= i < |s| ==> r[i] == s[|s| - 1 - i]
  {
    seq(|s|, i requires 0 <= i < |s| => s[|s| - 1 - i])
  }

  /** Rows sorted on one key whose values are all present are, read backwards, sorted on
      the same key in the other direction. */
  lemma ReversedKeySortsReversed(key: SortKey, rows: seq<Row>)
    requires forall i :: 0 <= i < |rows| ==> !At(rows[i], key.channel).Null?
    requires Sorted([key], rows)
    ensures Sorted([SortKey(key.channel, key.order.(ascending := !key.order.ascending))], Reverse(rows))
  {
    var reversed := SortKey(key.channel, key.order.(ascending := !key.order.ascending));
    var r := Reverse(rows);
    forall i, j | 0 <= i < j < |r| ensures CompareRows([reversed], r[i], r[j]) <= 0 {
      var a, b := rows[|rows| - 1 - j], rows[|rows| - 1 - i];
      assert CompareRows([key], a, b) <= 0;
      ReverseDirection(key.order, At(a, key.channel), At(b, key.channel));
      CompareKeyAntisymmetric(reversed.order, At(a, key.channel), At(b, key.channel));
    }
  }

  /** Inside a composite key list, reversing one key's direction reverses the order of two
      rows that tie on every earlier key and whose non-null values that key tells apart. */
  lemma {:induction false} ReverseKeyInRows(pre: seq<SortKey>, k: SortKey, post: seq<SortKey>, a: Row, b: Row)
    requires CompareRows(pre, a, b) == 0
    requires !At(a, k.channel).Null? && !At(b, k.channel).Null?
    requires CompareKey(k.order, At(a, k.channel), At(b, k.channel)) != 0
    ensures CompareRows(pre + [SortKey(k.channel, k.order.(ascending := !k.order.ascending))] + post, a, b)
         == -CompareRows(pre + [k] + post, a, b)
  {
    var reversed := SortKey(k.channel, k.order.(ascending := !k.order.ascending));
    if pre == [] {
      assert ([] + [reversed] + post)[1..] == post;
      assert ([] + [k] + post)[1..] == post;
      ReverseDirection(k.order, At(a, k.channel), At(b, k.channel));
    } else {
      assert (pre + [reversed] + post)[1..] == pre[1..] + [reversed] + post;
      assert (pre + [k] + post)[1..] == pre[1..] + [k] + post;
      ReverseKeyInRows(pre[1..], k, post, a, b);
    }
  }
}
