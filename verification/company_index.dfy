/** The list of companies shown in the sidebar: the distinct `index_name`
    values of the parsed rows, in the order a JavaScript `Set` keeps them. */
module CompanyIndex {
  import opened Sequences
  import opened Rows

  /** Adding `x` to an insertion-ordered set: appended only when not yet present. */
  function Insert(acc: seq<string>, x: string): seq<string> {
    if x in acc then acc else acc + [x]
  }

  /** `[...new Set(xs)]`: the elements of `xs` inserted left to right into a set,
      read back in insertion order. */
  function Distinct(xs: seq<string>): (r: seq<string>)
    ensures NoDuplicates(r)
    ensures forall x :: x in r <==> x in xs
    ensures |r| <= |xs|
    decreases |xs|
  {
    if |xs| == 0 then []
    else
      var init, last := xs[..|xs| - 1], xs[|xs| - 1];
      assert xs == init + [last];
      Insert(Distinct(init), last)
  }

  /** Every element of `r` occurs in `xs`, and `r` lists them by increasing
      position of their first occurrence in `xs`. */
  ghost predicate FirstSeenOrder(r: seq<string>, xs: seq<string>) {
    && (forall x :: x in r ==> x in xs)
    && (forall i, j :: 0 <= i < j < |r| ==> FirstIndex(xs, r[i]) < FirstIndex(xs, r[j]))
  }

  /** The companies derived once the CSV has been parsed. */
  function CompanyList(rows: seq<Row>): seq<string> {
    Distinct(Names(rows))
  }

  /** `Distinct` keeps the elements in the order they are first seen. */
  lemma {:induction false} DistinctFirstSeenOrder(xs: seq<string>)
    ensures FirstSeenOrder(Distinct(xs), xs)
    decreases |xs|
  {
    if |xs| > 0 {
      var ys, y := xs[..|xs| - 1], xs[|xs| - 1];
      assert xs == ys + [y];
      var r' := Distinct(ys);
      DistinctFirstSeenOrder(ys);
      forall i | 0 <= i < |r'|
        ensures FirstIndex(xs, r'[i]) == FirstIndex(ys, r'[i])
      {
        FirstIndexSnocOld(ys, y, r'[i]);
      }
      if y !in r' {
        FirstIndexSnocNew(ys, y);
      }
    }
  }

  /** `s` lists every element of `xs` once, in first-seen order. */
  ghost predicate ListsFirstSeen(s: seq<string>, xs: seq<string>) {
    && NoDuplicates(s)
    && (forall x :: x in xs ==> x in s)
    && FirstSeenOrder(s, xs)
  }

  /** Nothing lists the elements of the empty sequence but the empty sequence. */
  lemma ListsFirstSeenEmpty(s: seq<string>)
    requires ListsFirstSeen(s, [])
    ensures s == []
  {
    HeadIsMember(s);
  }

  /** A repeated last element of `xs` changes nothing about the listing. */
  lemma ListsFirstSeenRepeat(ys: seq<string>, y: string, s: seq<string>)
    requires y in ys
    requires ListsFirstSeen(s, ys + [y])
    ensures ListsFirstSeen(s, ys)
  {
    forall i | 0 <= i < |s|
      ensures s[i] in ys && FirstIndex(ys + [y], s[i]) == FirstIndex(ys, s[i])
    {
      assert s[i] in s;
      FirstIndexSnocOld(ys, y, s[i]);
    }
  }

  /** A new last element of `xs` is listed last, after a listing of the rest. */
  lemma ListsFirstSeenNew(ys: seq<string>, y: string, s: seq<string>)
    requires y !in ys
    requires ListsFirstSeen(s, ys + [y])
    ensures |s| > 0 && s[|s| - 1] == y
    ensures ListsFirstSeen(s[..|s| - 1], ys)
  {
    NewIsListedLast(ys, y, s);
    ListsFirstSeenDropLast(ys, y, s);
  }

  lemma NewIsListedLast(ys: seq<string>, y: string, s: seq<string>)
    requires y !in ys
    requires ListsFirstSeen(s, ys + [y])
    ensures |s| > 0 && s[|s| - 1] == y
  {
    var xs := ys + [y];
    assert xs[|ys|] == y;
    assert y in s;
    var p :| 0 <= p < |s| && s[p] == y;
    FirstIndexSnocNew(ys, y);
    var last := |s| - 1;
    assert s[last] in s;
    var kp, kl := FirstIndex(xs, s[p]), FirstIndex(xs, s[last]);
    assert kp == |ys| && kl <= |ys|;
    assert p < last ==> kp < kl;
  }

  lemma ListsFirstSeenDropLast(ys: seq<string>, y: string, s: seq<string>)
    requires y !in ys
    requires ListsFirstSeen(s, ys + [y])
    requires |s| > 0 && s[|s| - 1] == y
    ensures ListsFirstSeen(s[..|s| - 1], ys)
  {
    var xs := ys + [y];
    var s' := s[..|s| - 1];
    assert s == s' + [y];
    forall i | 0 <= i < |s'|
      ensures s'[i] in ys && FirstIndex(xs, s'[i]) == FirstIndex(ys, s'[i])
    {
      assert s'[i] == s[i] && s[i] in s;
      FirstIndexSnocOld(ys, y, s'[i]);
    }
    forall x | x in ys
      ensures x in s'
    {
      assert x in s;
    }
  }

  /** `Distinct(xs)` is the only sequence without duplicates that holds exactly
      the elements of `xs` in first-seen order. */
  lemma {:induction false} DistinctUnique(xs: seq<string>, s: seq<string>)
    requires ListsFirstSeen(s, xs)
    ensures s == Distinct(xs)
    decreases |xs|
  {
    if |xs| == 0 {
      ListsFirstSeenEmpty(s);
    } else {
      var ys, y := xs[..|xs| - 1], xs[|xs| - 1];
      assert xs == ys + [y];
      if y in ys {
        ListsFirstSeenRepeat(ys, y, s);
        DistinctUnique(ys, s);
      } else {
        ListsFirstSeenNew(ys, y, s);
        DistinctUnique(ys, s[..|s| - 1]);
        assert s == s[..|s| - 1] + [y];
      }
    }
  }

  /** A stand-alone model of the `Set` construction itself: names are pushed
      into a seen-set and a list when first met. It computes `CompanyList`,
      which the parse callback in `App` uses. */
  method Companies(rows: seq<Row>) returns (companies: seq<string>)
    ensures companies == CompanyList(rows)
    ensures NoDuplicates(companies)
    ensures forall c :: c in companies <==> exists i :: 0 <= i < |rows| && rows[i].indexName == c
    ensures |companies| <= |rows|
  {
    var seen: set<string> := {};
    companies := [];
    var i := 0;
    while i < |rows|
      invariant 0 <= i <= |rows|
      invariant companies == Distinct(Names(rows)[..i])
      invariant forall c :: c in seen <==> c in companies
    {
      var name := rows[i].indexName;
      assert Names(rows)[..i + 1] == Names(rows)[..i] + [name];
      if name !in seen {
        seen := seen + {name};
        companies := companies + [name];
      }
      i := i + 1;
    }
    assert Names(rows)[..i] == Names(rows);
    forall c | c in companies
      ensures exists j :: 0 <= j < |rows| && rows[j].indexName == c
    {
      var j :| 0 <= j < |rows| && Names(rows)[j] == c;
    }
    forall c | exists j :: 0 <= j < |rows| && rows[j].indexName == c
      ensures c in companies
    {
      var j :| 0 <= j < |rows| && rows[j].indexName == c;
      assert Names(rows)[j] == c;
    }
  }
}
