/**
 * Shared vocabulary of the concepts: optional values, the errors the
 * concepts throw, identifiers, the string helpers the queries use, and the
 * collection helpers (filtering, stable ranking, insertion-ordered tallies)
 * that several concepts rely on.
 */
module Common {

  /** Identity of a user account; the concepts only ever compare two of them. */
  type UserId(==, !new)

  /** Identity of a stored document, handed out fresh by the concept that stores it. */
  type DocId = nat

  datatype Option<+T> = None | Some(value: T)

  /** The error classes thrown by the concepts. */
  datatype Error =
    | NotFound                 // NotFoundError
    | NotAllowed               // NotAllowedError
    | PostAuthorNotMatch       // PostAuthorNotMatchError (a NotAllowedError)
    | Failure(message: string) // a plain Error with its message

  datatype Result<+T> = Ok(value: T) | Err(error: Error)

  datatype Outcome = Pass | Fail(error: Error)

  // ---------------------------------------------------------------------
  // Strings
  // ---------------------------------------------------------------------

  /** Lower-casing of one character (letters A-Z only). */
  function LowerChar(c: char): (r: char)
    ensures 'A' <= c <= 'Z' ==> 'a' <= r <= 'z' && r as int - c as int == 'a' as int - 'A' as int
    ensures !('A' <= c <= 'Z') ==> r == c
  {
    if 'A' <= c <= 'Z' then (c as int - 'A' as int + 'a' as int) as char else c
  }

  /** `s.toLowerCase()`, restricted to the letters A-Z. */
  function Lower(s: string): (r: string)
    ensures |r| == |s|
    ensures forall i :: 0 <= i < |s| ==> r[i] == LowerChar(s[i])
  {
    if s == [] then [] else [LowerChar(s[0])] + Lower(s[1..])
  }

  /** `pat` occurs in `s` starting at position `i`. */
  predicate OccursAt(s: string, pat: string, i: int)
  {
    0 <= i && i + |pat| <= |s| && s[i..i + |pat|] == pat
  }

  /** The first position at or after `from` where `pat` occurs in `s`. */
  function FindFrom(s: string, pat: string, from: nat): (r: Option<nat>)
    decreases |s| - from
    ensures r.Some? ==> from <= r.value && OccursAt(s, pat, r.value)
    ensures r.Some? ==> forall j :: from <= j < r.value ==> !OccursAt(s, pat, j)
    ensures r.None? ==> forall j :: from <= j ==> !OccursAt(s, pat, j)
  {
    if from + |pat| > |s| then None
    else if s[from..from + |pat|] == pat then Some(from)
    else FindFrom(s, pat, from + 1)
  }

  /** `s.includes(pat)`. */
  function Includes(s: string, pat: string): (b: bool)
    ensures b <==> exists i :: OccursAt(s, pat, i)
  {
    var r := FindFrom(s, pat, 0);
    if r.Some? then true
    else
      assert forall i :: !OccursAt(s, pat, i) by {
        forall i ensures !OccursAt(s, pat, i) {
          if i >= 0 {
            assert !OccursAt(s, pat, i);
          }
        }
      }
      false
  }

  /**
   * The text that `replace` inserts for one match, given the replacement
   * string `rep` (the GetSubstitution step of ECMAScript, for a string
   * pattern, which has no capture groups): `$$` stands for `$`, `$&` for the
   * matched text, `` $` `` for the text before the match and `$'` for the
   * text after it; every other character, a lone `$` included, stands for
   * itself.
   */
  function Substitution(rep: string, matched: string, before: string, after: string): (r: string)
    ensures (forall i :: 0 <= i < |rep| ==> rep[i] != '$') ==> r == rep
  {
    if rep == [] then []
    else if rep[0] == '$' && |rep| >= 2 && rep[1] == '$' then "$" + Substitution(rep[2..], matched, before, after)
    else if rep[0] == '$' && |rep| >= 2 && rep[1] == '&' then matched + Substitution(rep[2..], matched, before, after)
    else if rep[0] == '$' && |rep| >= 2 && rep[1] == '`' then before + Substitution(rep[2..], matched, before, after)
    else if rep[0] == '$' && |rep| >= 2 && rep[1] == '\'' then after + Substitution(rep[2..], matched, before, after)
    else [rep[0]] + Substitution(rep[1..], matched, before, after)
  }

  /**
   * The expansion consumes the replacement from the front: each of the four
   * two-character patterns gives its text, and any other character,
   * including a `$` that starts none of them, stands for itself.
   */
  lemma SubstitutionCases(rep: string, matched: string, before: string, after: string)
    ensures |rep| >= 2 && rep[0] == '$' && rep[1] == '$' ==>
              Substitution(rep, matched, before, after) == "$" + Substitution(rep[2..], matched, before, after)
    ensures |rep| >= 2 && rep[0] == '$' && rep[1] == '&' ==>
              Substitution(rep, matched, before, after) == matched + Substitution(rep[2..], matched, before, after)
    ensures |rep| >= 2 && rep[0] == '$' && rep[1] == '`' ==>
              Substitution(rep, matched, before, after) == before + Substitution(rep[2..], matched, before, after)
    ensures |rep| >= 2 && rep[0] == '$' && rep[1] == '\'' ==>
              Substitution(rep, matched, before, after) == after + Substitution(rep[2..], matched, before, after)
    ensures rep != [] && !(|rep| >= 2 && rep[0] == '$' && rep[1] in "$&`'") ==>
              Substitution(rep, matched, before, after) == [rep[0]] + Substitution(rep[1..], matched, before, after)
  {
  }

  /**
   * `s.replace(pat, rep)` with a string pattern: only the first occurrence
   * is replaced, by the expansion of `rep`.
   */
  function ReplaceFirst(s: string, pat: string, rep: string): (r: string)
    ensures (forall i :: !OccursAt(s, pat, i)) ==> r == s
    ensures forall p :: OccursAt(s, pat, p) && (forall j :: 0 <= j < p ==> !OccursAt(s, pat, j)) ==>
              r == s[..p] + Substitution(rep, pat, s[..p], s[p + |pat|..]) + s[p + |pat|..]
  {
    match FindFrom(s, pat, 0)
    case None => s
    case Some(p) =>
      var r := s[..p] + Substitution(rep, pat, s[..p], s[p + |pat|..]) + s[p + |pat|..];
      FirstOccurrenceUnique(s, pat, rep, p);
      r
  }

  /** A replacement of `$&` puts the match back: the string is unchanged. */
  lemma MatchPatternKeepsString(s: string, pat: string)
    ensures ReplaceFirst(s, pat, "$&") == s
  {
    var found := FindFrom(s, pat, 0);
    if found.Some? {
      var p := found.value;
      var before, after := s[..p], s[p + |pat|..];
      assert s == before + s[p..p + |pat|] + after;
      var rep := Substitution("$&", pat, before, after);
      assert rep == pat by {
        assert "$&"[2..] == [];
      }
      assert ReplaceFirst(s, pat, "$&") == before + rep + after;
    }
  }

  /** Only one position can be the first occurrence of `pat`, so the replacement made there is unique. */
  lemma FirstOccurrenceUnique(s: string, pat: string, rep: string, p: nat)
    requires OccursAt(s, pat, p) && forall j :: 0 <= j < p ==> !OccursAt(s, pat, j)
    ensures forall q :: OccursAt(s, pat, q) && (forall j :: 0 <= j < q ==> !OccursAt(s, pat, j)) ==>
              s[..p] + Substitution(rep, pat, s[..p], s[p + |pat|..]) + s[p + |pat|..]
              == s[..q] + Substitution(rep, pat, s[..q], s[q + |pat|..]) + s[q + |pat|..]
  {
    forall q | OccursAt(s, pat, q) && (forall j :: 0 <= j < q ==> !OccursAt(s, pat, j)) ensures q == p {
      assert !(q < p) && !(p < q);
    }
  }


  // ---------------------------------------------------------------------
  // Sequences
  // ---------------------------------------------------------------------

  /** The elements of `xs` in order, minus the one at index `k`: `splice(k, 1)`. */
  function RemoveAt<T>(xs: seq<T>, k: nat): (r: seq<T>)
    requires k < |xs|
    ensures |r| == |xs| - 1
    ensures forall i :: 0 <= i < k ==> r[i] == xs[i]
    ensures forall i :: k <= i < |r| ==> r[i] == xs[i + 1]
  {
    xs[..k] + xs[k + 1..]
  }

  /**
   * The elements of `xs` that are neither in `seen` nor earlier in `xs`,
   * each once, in order of first occurrence: what a loop that adds each
   * missing element to a Set as it goes produces.
   */
  function NewInOrder<T(==)>(seen: set<T>, xs: seq<T>): seq<T>
  {
    if xs == [] then []
    else
      var init, x := xs[..|xs| - 1], xs[|xs| - 1];
      NewInOrder(seen, init) + (if x in seen || x in init then [] else [x])
  }

  /** One more element of `xs` extends the first occurrences by that element, if it is new. */
  lemma NewInOrderStep<T>(seen: set<T>, xs: seq<T>, i: nat)
    requires i < |xs|
    ensures NewInOrder(seen, xs[..i + 1]) ==
              NewInOrder(seen, xs[..i]) + (if xs[i] in seen || xs[i] in xs[..i] then [] else [xs[i]])
  {
    assert xs[..i + 1][..i] == xs[..i];
  }

  lemma {:induction false} NewInOrderProperties<T>(seen: set<T>, xs: seq<T>)
    ensures forall x :: x in NewInOrder(seen, xs) <==> x in xs && x !in seen
    ensures forall i, j :: 0 <= i < j < |NewInOrder(seen, xs)| ==>
              NewInOrder(seen, xs)[i] != NewInOrder(seen, xs)[j]
  {
    if xs != [] {
      var init, x := xs[..|xs| - 1], xs[|xs| - 1];
      assert xs == init + [x];
      NewInOrderProperties(seen, init);
    }
  }

  // ---------------------------------------------------------------------
  // Stable ranking by an integer key (largest key first)
  // ---------------------------------------------------------------------

  ghost predicate SortedDescBy<T>(s: seq<T>, key: T -> int)
  {
    forall i, j :: 0 <= i < j < |s| ==> key(s[i]) >= key(s[j])
  }

  /** The elements of `s` whose key is `v`, in their order in `s`. */
  function WithKey<T>(s: seq<T>, key: T -> int, v: int): seq<T>
  {
    if s == [] then [] else (if key(s[0]) == v then [s[0]] else []) + WithKey(s[1..], key, v)
  }

  /** Places `x` after every element of the (ranked) `s` whose key is at least `x`'s. */
  function InsertBy<T>(s: seq<T>, x: T, key: T -> int): seq<T>
  {
    if s == [] then [x]
    else if key(s[0]) < key(x) then [x] + s
    else [s[0]] + InsertBy(s[1..], x, key)
  }

  /** `arr.sort((a, b) => key(b) - key(a))`: a stable sort, largest key first. */
  function SortDescBy<T>(xs: seq<T>, key: T -> int): seq<T>
  {
    if xs == [] then [] else InsertBy(SortDescBy(xs[..|xs| - 1], key), xs[|xs| - 1], key)
  }

  lemma {:induction false} WithKeyAppend<T>(a: seq<T>, b: seq<T>, key: T -> int, v: int)
    ensures WithKey(a + b, key, v) == WithKey(a, key, v) + WithKey(b, key, v)
  {
    if a == [] {
      assert a + b == b;
    } else {
      var head := if key(a[0]) == v then [a[0]] else [];
      assert (a + b)[0] == a[0];
      assert (a + b)[1..] == a[1..] + b;
      WithKeyAppend(a[1..], b, key, v);
      calc {
        WithKey(a + b, key, v);
        head + WithKey(a[1..] + b, key, v);
        head + (WithKey(a[1..], key, v) + WithKey(b, key, v));
        (head + WithKey(a[1..], key, v)) + WithKey(b, key, v);
      }
    }
  }

  lemma {:induction false} WithKeyAboveHead<T>(s: seq<T>, key: T -> int, v: int)
    requires SortedDescBy(s, key)
    requires s != [] && key(s[0]) < v
    ensures WithKey(s, key, v) == []
  {
    if |s| > 1 {
      WithKeyAboveHead(s[1..], key, v);
    }
  }

  lemma {:induction false} InsertByElements<T>(s: seq<T>, x: T, key: T -> int)
    ensures multiset(InsertBy(s, x, key)) == multiset(s) + multiset{x}
  {
    if s != [] && key(s[0]) >= key(x) {
      InsertByElements(s[1..], x, key);
      assert s == [s[0]] + s[1..];
    }
  }

  lemma {:induction false} InsertBySorted<T>(s: seq<T>, x: T, key: T -> int)
    requires SortedDescBy(s, key)
    ensures SortedDescBy(InsertBy(s, x, key), key)
  {
    if s != [] && key(s[0]) >= key(x) {
      var rest := InsertBy(s[1..], x, key);
      InsertBySorted(s[1..], x, key);
      InsertByElements(s[1..], x, key);
      forall j | 0 <= j < |rest| ensures key(s[0]) >= key(rest[j]) {
        assert rest[j] in multiset(rest);
        assert rest[j] in multiset(s[1..]) + multiset{x};
        if rest[j] != x {
          var k :| 0 <= k < |s[1..]| && s[1..][k] == rest[j];
          assert s[k + 1] == rest[j];
        }
      }
    }
  }

  lemma {:induction false} InsertByWithKey<T>(s: seq<T>, x: T, key: T -> int, v: int)
    requires SortedDescBy(s, key)
    ensures WithKey(InsertBy(s, x, key), key, v) == WithKey(s, key, v) + (if key(x) == v then [x] else [])
  {
    var tail := if key(x) == v then [x] else [];
    if s == [] {
      assert InsertBy(s, x, key) == [x];
      assert WithKey([x], key, v) == tail + WithKey([x][1..], key, v);
    } else if key(s[0]) < key(x) {
      var r := InsertBy(s, x, key);
      assert r == [x] + s;
      assert r[0] == x && r[1..] == s;
      assert WithKey(r, key, v) == tail + WithKey(s, key, v);
      if key(x) == v {
        WithKeyAboveHead(s, key, v);
      }
    } else {
      var r := InsertBy(s, x, key);
      var head := if key(s[0]) == v then [s[0]] else [];
      assert r == [s[0]] + InsertBy(s[1..], x, key);
      assert r[0] == s[0] && r[1..] == InsertBy(s[1..], x, key);
      assert WithKey(r, key, v) == head + WithKey(InsertBy(s[1..], x, key), key, v);
      assert SortedDescBy(s[1..], key);
      InsertByWithKey(s[1..], x, key, v);
      assert WithKey(s, key, v) == head + WithKey(s[1..], key, v);
    }
  }

  /**
   * The ranking is ordered by key, largest first, is a permutation of its
   * input, and is stable: the elements sharing any one key keep their
   * relative order.
   */
  lemma {:induction false} SortDescByCorrect<T>(xs: seq<T>, key: T -> int)
    ensures SortedDescBy(SortDescBy(xs, key), key)
    ensures multiset(SortDescBy(xs, key)) == multiset(xs)
    ensures forall v :: WithKey(SortDescBy(xs, key), key, v) == WithKey(xs, key, v)
  {
    if xs != [] {
      var init, x := xs[..|xs| - 1], xs[|xs| - 1];
      assert xs == init + [x];
      SortDescByCorrect(init, key);
      InsertBySorted(SortDescBy(init, key), x, key);
      InsertByElements(SortDescBy(init, key), x, key);
      forall v ensures WithKey(SortDescBy(xs, key), key, v) == WithKey(xs, key, v) {
        InsertByWithKey(SortDescBy(init, key), x, key, v);
        WithKeyAppend(init, [x], key, v);
      }
    }
  }

  // ---------------------------------------------------------------------
  // Insertion-ordered frequency tables (a JavaScript Map<T, number>)
  // ---------------------------------------------------------------------

  /** The keys of a table, in insertion order. */
  function Keys<T>(m: seq<(T, nat)>): seq<T>
  {
    if m == [] then [] else [m[0].0] + Keys(m[1..])
  }

  /** `m.get(x) || 0`. */
  function Get<T(==)>(m: seq<(T, nat)>, x: T): nat
  {
    if m == [] then 0 else if m[0].0 == x then m[0].1 else Get(m[1..], x)
  }

  /** The sum of all frequencies in a table. */
  function Total<T>(m: seq<(T, nat)>): nat
  {
    if m == [] then 0 else m[0].1 + Total(m[1..])
  }

  /** `m.set(x, (m.get(x) || 0) + 1)`: bumps `x` in place, or appends it with count 1. */
  function Bump<T(==)>(m: seq<(T, nat)>, x: T): (r: seq<(T, nat)>)
    ensures Get(r, x) == Get(m, x) + 1
    ensures Total(r) == Total(m) + 1
    ensures |m| <= |r| <= |m| + 1
  {
    if m == [] then [(x, 1)]
    else if m[0].0 == x then [(x, m[0].1 + 1)] + m[1..]
    else [m[0]] + Bump(m[1..], x)
  }

  /** The table built by bumping each element of `xs` in turn. */
  function Tally<T(==)>(xs: seq<T>): (r: seq<(T, nat)>)
    ensures Total(r) == |xs|
    ensures |r| <= |xs|
  {
    if xs == [] then [] else Bump(Tally(xs[..|xs| - 1]), xs[|xs| - 1])
  }

  /** The frequency of a table entry, the key that `sortByFrequency` ranks by. */
  function Frequency<T>(e: (T, nat)): int
  {
    e.1
  }

  lemma {:induction false} BumpProperties<T>(m: seq<(T, nat)>, x: T)
    ensures forall y :: Get(Bump(m, x), y) == Get(m, y) + (if y == x then 1 else 0)
    ensures Total(Bump(m, x)) == Total(m) + 1
    ensures Keys(Bump(m, x)) == Keys(m) + (if x in Keys(m) then [] else [x])
  {
    if m != [] && m[0].0 != x {
      BumpProperties(m[1..], x);
      assert Bump(m, x)[1..] == Bump(m[1..], x);
    } else if m != [] {
      assert Bump(m, x)[1..] == m[1..];
    }
  }

  /**
   * A tally counts every element exactly as often as it occurs, its
   * frequencies add up to the number of elements, and its keys are the
   * distinct elements in order of first occurrence.
   */
  lemma {:induction false} TallyCorrect<T>(xs: seq<T>)
    ensures forall y :: Get(Tally(xs), y) == multiset(xs)[y]
    ensures Total(Tally(xs)) == |xs|
    ensures Keys(Tally(xs)) == NewInOrder({}, xs)
  {
    if xs != [] {
      var init, x := xs[..|xs| - 1], xs[|xs| - 1];
      assert xs == init + [x];
      TallyCorrect(init);
      BumpProperties(Tally(init), x);
      NewInOrderProperties({}, init);
    }
  }

  // ---------------------------------------------------------------------
  // Filtering (`readMany` with an equality filter, `Array.filter`)
  // ---------------------------------------------------------------------

  /** The elements of `s` that satisfy `p`, in their order in `s`. */
  function Filter<T>(s: seq<T>, p: T -> bool): (r: seq<T>)
    ensures |r| <= |s|
    ensures forall i :: 0 <= i < |r| ==> p(r[i])
    ensures multiset(r) <= multiset(s)
  {
    if s == [] then []
    else
      assert s == [s[0]] + s[1..];
      (if p(s[0]) then [s[0]] else []) + Filter(s[1..], p)
  }

  lemma {:induction false} FilterMembers<T>(s: seq<T>, p: T -> bool)
    ensures forall x :: x in Filter(s, p) <==> x in s && p(x)
  {
    if s != [] {
      FilterMembers(s[1..], p);
      assert s == [s[0]] + s[1..];
    }
  }

  // ---------------------------------------------------------------------
  // Document ids
  // ---------------------------------------------------------------------

  /** No two elements of `s` share an id. */
  ghost predicate Distinct<T>(s: seq<T>, id: T -> DocId)
  {
    forall i, j :: 0 <= i < j < |s| ==> id(s[i]) != id(s[j])
  }

  /** The first position at which an element with id `x` is stored (what `readOne({_id})` finds). */
  function FindIndex<T>(s: seq<T>, id: T -> DocId, x: DocId): (r: Option<nat>)
    ensures r.Some? ==> r.value < |s| && id(s[r.value]) == x
    ensures r.Some? ==> forall k :: 0 <= k < r.value ==> id(s[k]) != x
    ensures r.None? ==> forall k :: 0 <= k < |s| ==> id(s[k]) != x
  {
    if s == [] then None
    else if id(s[0]) == x then Some(0)
    else match FindIndex(s[1..], id, x)
      case None => None
      case Some(k) => Some(k + 1)
  }

  /**
   * Filtering commutes with concatenation, so the kept elements stay in
   * their original order.
   */
  lemma {:induction false} FilterAppend<T>(a: seq<T>, b: seq<T>, p: T -> bool)
    ensures Filter(a + b, p) == Filter(a, p) + Filter(b, p)
  {
    if a == [] {
      assert a + b == b;
    } else {
      assert (a + b)[0] == a[0];
      assert (a + b)[1..] == a[1..] + b;
      FilterAppend(a[1..], b, p);
    }
  }

  lemma FilteredFrom<T>(s: seq<T>, p: T -> bool, x: T)
    requires x in Filter(s, p)
    ensures x in s
  {
    FilterMembers(s, p);
  }

  lemma {:induction false} FilterDistinct<T>(s: seq<T>, p: T -> bool, id: T -> DocId)
    requires Distinct(s, id)
    ensures Distinct(Filter(s, p), id)
  {
    if s != [] {
      var rest := Filter(s[1..], p);
      FilterDistinct(s[1..], p, id);
      forall j | 0 <= j < |rest| ensures id(s[0]) != id(rest[j]) {
        assert rest[j] in rest;
        FilteredFrom(s[1..], p, rest[j]);
        var k :| 0 <= k < |s[1..]| && s[1..][k] == rest[j];
        assert s[k + 1] == rest[j];
      }
      if p(s[0]) {
        var r := [s[0]] + rest;
        assert Filter(s, p) == r;
        forall i, j | 0 <= i < j < |r| ensures id(r[i]) != id(r[j]) {
          assert r[j] == rest[j - 1];
          if i > 0 {
            assert r[i] == rest[i - 1];
          }
        }
      }
    }
  }
}
