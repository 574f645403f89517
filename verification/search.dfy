/** The table's search filter `tableData` and the string helpers it uses. */
module Search {
  import opened Records

  /** ASCII case folding: the part of `toLowerCase` this model keeps. */
  function LowerChar(c: char): char
  {
    if 'A' <= c <= 'Z' then (c as int + 32) as char else c
  }

  /**
   * `s.toLowerCase()`, folding ASCII letters only: each upper-case letter
   * becomes its lower-case partner, and nothing else changes.
   */
  function ToLower(s: string): (r: string)
    ensures |r| == |s|
    ensures forall i :: 0 <= i < |s| && 'A' <= s[i] <= 'Z' ==> r[i] as int == s[i] as int + 32
    ensures forall i :: 0 <= i < |r| ==> !('A' <= r[i] <= 'Z')
    ensures forall i :: 0 <= i < |s| && !('A' <= s[i] <= 'Z') ==> r[i] == s[i]
  {
    seq(|s|, i requires 0 <= i < |s| => LowerChar(s[i]))
  }

  /** `sub` occurs in `s` starting at index `i`. */
  predicate OccursAt(s: string, sub: string, i: nat)
  {
    i + |sub| <= |s| && s[i..i + |sub|] == sub
  }

  /** `s.includes(sub)`, scanning from the front. The empty string is in every string. */
  predicate Contains(s: string, sub: string)
    ensures Contains(s, sub) ==> |sub| <= |s|
    ensures sub == [] ==> Contains(s, sub)
    decreases |s|
  {
    OccursAt(s, sub, 0) || (|s| > 0 && Contains(s[1..], sub))
  }

  /** The scan finds `sub` exactly when it occurs at some index of `s`. */
  lemma {:induction false} ContainsIff(s: string, sub: string)
    ensures Contains(s, sub) <==> exists i: nat :: OccursAt(s, sub, i)
    decreases |s|
  {
    if Contains(s, sub) {
      if !OccursAt(s, sub, 0) {
        ContainsIff(s[1..], sub);
        var i: nat :| OccursAt(s[1..], sub, i);
        assert s[1..][i..i + |sub|] == s[i + 1..i + 1 + |sub|];
        assert OccursAt(s, sub, i + 1);
      }
    }
    if exists i: nat :: OccursAt(s, sub, i) {
      var i: nat :| OccursAt(s, sub, i);
      if i > 0 {
        assert s[1..][i - 1..i - 1 + |sub|] == s[i..i + |sub|];
        assert OccursAt(s[1..], sub, i - 1);
        ContainsIff(s[1..], sub);
      }
    }
  }

  /** A string without the first character of `sub` does not include `sub`. */
  lemma {:induction false} MissingFirstCharacter(s: string, sub: string)
    requires |sub| > 0 && sub[0] !in s
    ensures !Contains(s, sub)
    decreases |s|
  {
    if |sub| <= |s| {
      assert s[..|sub|][0] == s[0];
    }
    if |s| > 0 {
      MissingFirstCharacter(s[1..], sub);
    }
  }

  /** The row passes the search: its lower-cased product id includes the lower-cased query. */
  predicate Keeps(r: Row, query: string)
  {
    r.productId.Some? && Contains(ToLower(r.productId.value), ToLower(query))
  }

  /**
   * `excelData.filter(item => item.product_id.toLowerCase().includes(q.toLowerCase()))`.
   * The page calls `toLowerCase` on every product id, so a row without one
   * would stop it: every row must carry an id.
   */
  function Filter(rows: seq<Row>, query: string): (result: seq<Row>)
    requires AllHaveIds(rows)
    ensures |result| <= |rows|
    ensures forall r :: r in result ==> r in rows && Keeps(r, query)
    ensures forall r :: r in rows && Keeps(r, query) ==> r in result
  {
    if rows == [] then []
    else (if Keeps(rows[0], query) then [rows[0]] else []) + Filter(rows[1..], query)
  }

  /** `a` is `b` with some elements deleted, the rest kept in their order. */
  predicate IsSubsequence(a: seq<Row>, b: seq<Row>)
    decreases |b|
  {
    if a == [] then true
    else if b == [] then false
    else (a[0] == b[0] && IsSubsequence(a[1..], b[1..])) || IsSubsequence(a, b[1..])
  }

  /** The filter keeps the original order. */
  lemma {:induction false} FilterSubsequence(rows: seq<Row>, query: string)
    requires AllHaveIds(rows)
    ensures IsSubsequence(Filter(rows, query), rows)
  {
    if rows != [] {
      FilterSubsequence(rows[1..], query);
      var rest := Filter(rows[1..], query);
      if Keeps(rows[0], query) {
        assert Filter(rows, query) == [rows[0]] + rest;
        assert ([rows[0]] + rest)[1..] == rest;
      } else {
        assert Filter(rows, query) == rest;
        SubsequenceOfTail(rest, rows);
      }
    }
  }

  lemma {:induction false} SubsequenceOfTail(a: seq<Row>, b: seq<Row>)
    requires b != [] && IsSubsequence(a, b[1..])
    ensures IsSubsequence(a, b)
  {
  }

  /** The filter keeps every passing row as often as it occurs, and no other row. */
  lemma {:induction false} FilterCounts(rows: seq<Row>, query: string, r: Row)
    requires AllHaveIds(rows)
    ensures multiset(Filter(rows, query))[r] == if Keeps(r, query) then multiset(rows)[r] else 0
  {
    if rows != [] {
      FilterCounts(rows[1..], query, r);
      assert rows == [rows[0]] + rows[1..];
      assert multiset(rows) == multiset([rows[0]]) + multiset(rows[1..]);
    }
  }

  /** A list whose every row passes comes out unchanged. */
  lemma {:induction false} FilterAllKept(rows: seq<Row>, query: string)
    requires AllHaveIds(rows)
    requires forall r :: r in rows ==> Keeps(r, query)
    ensures Filter(rows, query) == rows
  {
    if rows != [] {
      assert rows[0] in rows;
      FilterAllKept(rows[1..], query);
      assert [rows[0]] + rows[1..] == rows;
    }
  }

  /** An empty search shows every row, in order. */
  lemma FilterEmptyQuery(rows: seq<Row>)
    requires AllHaveIds(rows)
    ensures Filter(rows, "") == rows
  {
    FilterAllKept(rows, "");
  }

  /** Filtering twice with the same query is filtering once. */
  lemma FilterIdempotent(rows: seq<Row>, query: string)
    requires AllHaveIds(rows)
    ensures AllHaveIds(Filter(rows, query))
    ensures Filter(Filter(rows, query), query) == Filter(rows, query)
  {
    FilterAllKept(Filter(rows, query), query);
  }

  /** Queries that differ only in letter case select the same rows. */
  lemma {:induction false} FilterCaseInsensitive(rows: seq<Row>, q1: string, q2: string)
    requires AllHaveIds(rows)
    requires ToLower(q1) == ToLower(q2)
    ensures Filter(rows, q1) == Filter(rows, q2)
  {
    if rows != [] {
      FilterCaseInsensitive(rows[1..], q1, q2);
    }
  }

  /** An upper-case id is found by a lower-case query. */
  lemma FilterExample()
    ensures Filter([Row(Some("ABC1"), None)], "abc") == [Row(Some("ABC1"), None)]
  {
  }
}
