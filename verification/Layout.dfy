/** Tensor layouts: dimension letters, '?' for an unknown dimension, "..." for any number of them. */
module Layout {
  import opened FifoPool

  const ALLOWED_DIMENSION_LETTERS := "NCHWD"
  const ETC_CHAR := '.'
  const UNDEFINED_DIMENSION_CHAR := '?'
  const ETC_LAYOUT_DELIMETER := "..."

  predicate Letter(c: char) {
    c in ALLOWED_DIMENSION_LETTERS
  }

  // ---- Well-formed layouts ----

  /** No letter occurs twice. */
  ghost predicate NoRepeat(s: string) {
    forall i, j :: 0 <= i < j < |s| && Letter(s[i]) ==> s[i] != s[j]
  }

  ghost predicate OnlyAllowed(s: string) {
    forall i :: 0 <= i < |s| ==> Letter(s[i]) || s[i] == ETC_CHAR || s[i] == UNDEFINED_DIMENSION_CHAR
  }

  ghost predicate NoDots(s: string) {
    forall i :: 0 <= i < |s| ==> s[i] != ETC_CHAR
  }

  /** The only dots of s are the three at position p. */
  ghost predicate DotsAt(s: string, p: nat) {
    && p + 3 <= |s|
    && (forall i :: 0 <= i < |s| ==> (s[i] == ETC_CHAR <==> p <= i < p + 3))
  }

  ghost predicate DotsFine(s: string) {
    NoDots(s) || exists p: nat :: DotsAt(s, p)
  }

  ghost predicate Valid(s: string) {
    OnlyAllowed(s) && NoRepeat(s) && DotsFine(s)
  }

  method CountChar(s: string, c: char) returns (count: nat)
    ensures count > 1 <==> exists i, j :: 0 <= i < j < |s| && s[i] == c && s[j] == c
  {
    count := 0;
    ghost var first: nat := 0;
    for i := 0 to |s|
      invariant count == 0 <==> forall k :: 0 <= k < i ==> s[k] != c
      invariant count >= 1 ==> first < i && s[first] == c
      invariant count > 1 <==> exists k, l :: 0 <= k < l < i && s[k] == c && s[l] == c
    {
      if s[i] == c {
        if count == 0 {
          first := i;
        } else {
          assert 0 <= first < i < i + 1 && s[first] == c && s[i] == c;
        }
        count := count + 1;
      }
    }
  }

  /**
   * The characters are N, C, H, W, D, '.' and '?', no letter occurs twice, and there is no dot or
   * exactly one run of three.
   */
  lemma ValidExactly(s: string)
    ensures Valid(s) <==>
            && (forall i :: 0 <= i < |s| ==> s[i] in {'N', 'C', 'H', 'W', 'D', '.', '?'})
            && (forall i, j :: 0 <= i < j < |s| && s[i] == s[j] ==> s[i] in {'.', '?'})
            && ('.' !in s || exists p: nat ::
                  p + 3 <= |s| && s[p..p + 3] == "..." && '.' !in s[..p] && '.' !in s[p + 3..])
  {
    LettersExactly();
    DotsExactly(s);
  }

  lemma DotsExactly(s: string)
    ensures DotsFine(s) <==>
            '.' !in s || exists p: nat ::
              p + 3 <= |s| && s[p..p + 3] == "..." && '.' !in s[..p] && '.' !in s[p + 3..]
  {
    if p: nat :| DotsAt(s, p) {
      assert s[p..p + 3] == "...";
      assert '.' !in s[..p] && '.' !in s[p + 3..];
    }
    if p: nat :| p + 3 <= |s| && s[p..p + 3] == "..." && '.' !in s[..p] && '.' !in s[p + 3..] {
      DotsOnlyThere(s, p);
    }
  }

  lemma LettersExactly()
    ensures forall c: char :: Letter(c) <==> c in {'N', 'C', 'H', 'W', 'D'}
  {
    var letters := ALLOWED_DIMENSION_LETTERS;
    assert letters == ['N', 'C', 'H', 'W', 'D'];
    assert letters[0] == 'N' && letters[1] == 'C' && letters[2] == 'H' && letters[3] == 'W' && letters[4] == 'D';
  }

  lemma DotsOnlyThere(s: string, p: nat)
    requires p + 3 <= |s| && s[p..p + 3] == "..." && '.' !in s[..p] && '.' !in s[p + 3..]
    ensures DotsAt(s, p)
  {
    assert s == s[..p] + s[p..p + 3] + s[p + 3..];
    forall i | 0 <= i < |s| ensures s[i] == ETC_CHAR <==> p <= i < p + 3 {
      if i < p {
        assert s[..p][i] == s[i];
      } else if i < p + 3 {
        assert s[p..p + 3][i - p] == s[i];
      } else {
        assert s[p + 3..][i - (p + 3)] == s[i];
      }
    }
  }

  /** Accepts exactly the valid layouts. */
  method Validate(s: string) returns (ok: bool)
    ensures ok <==> Valid(s)
    ensures ok <==>
            && (forall i :: 0 <= i < |s| ==> s[i] in {'N', 'C', 'H', 'W', 'D', '.', '?'})
            && (forall i, j :: 0 <= i < j < |s| && s[i] == s[j] ==> s[i] in {'.', '?'})
            && ('.' !in s || exists p: nat ::
                  p + 3 <= |s| && s[p..p + 3] == "..." && '.' !in s[..p] && '.' !in s[p + 3..])
  {
    ValidExactly(s);
    for i := 0 to |s|
      invariant forall k :: 0 <= k < i ==> Letter(s[k]) || s[k] == ETC_CHAR || s[k] == UNDEFINED_DIMENSION_CHAR
    {
      if !Letter(s[i]) && s[i] != ETC_CHAR && s[i] != UNDEFINED_DIMENSION_CHAR {
        return false;
      }
    }
    for l := 0 to |ALLOWED_DIMENSION_LETTERS|
      invariant forall m, i, j ::
                  0 <= m < l && 0 <= i < j < |s| && s[i] == ALLOWED_DIMENSION_LETTERS[m] ==> s[i] != s[j]
    {
      var count := CountChar(s, ALLOWED_DIMENSION_LETTERS[l]);
      if count > 1 {
        assert Letter(ALLOWED_DIMENSION_LETTERS[l]);
        return false;
      }
    }
    assert NoRepeat(s) by {
      forall i, j | 0 <= i < j < |s| && Letter(s[i]) ensures s[i] != s[j] {
        var m :| 0 <= m < |ALLOWED_DIMENSION_LETTERS| && ALLOWED_DIMENSION_LETTERS[m] == s[i];
      }
    }
    ok := ValidateDots(s);
  }

  /** The last loop of validate: the dots are absent or one run of three. */
  method ValidateDots(s: string) returns (ok: bool)
    ensures ok <==> DotsFine(s)
  {
    var dotCount := 0;
    var firstEtcAppeared := false;
    var fullEtcAppeared := false;
    ghost var start: nat := 0;
    for i := 0 to |s|
      invariant 0 <= dotCount <= 3 && start + dotCount <= i
      invariant forall k :: 0 <= k < i ==> (s[k] == ETC_CHAR <==> start <= k < start + dotCount)
      invariant fullEtcAppeared <==> dotCount == 3
      invariant firstEtcAppeared <==> 1 <= dotCount <= 2
      invariant firstEtcAppeared ==> start + dotCount == i
    {
      if s[i] == ETC_CHAR {
        if fullEtcAppeared {
          OneRunOnly(s, start);
          return false;
        }
        if dotCount == 0 {
          start := i;
        }
        firstEtcAppeared := true;
        dotCount := dotCount + 1;
        if dotCount >= 3 {
          fullEtcAppeared := true;
          firstEtcAppeared := false;
        }
      } else if firstEtcAppeared {
        OneRunOnly(s, start);
        return false;
      }
    }
    if firstEtcAppeared && !fullEtcAppeared {
      OneRunOnly(s, start);
      return false;
    }
    ok := true;
    assert dotCount == 3 ==> DotsAt(s, start);
  }

  /** If the first dot of s is at start, a run of three dots can only be there. */
  lemma OneRunOnly(s: string, start: nat)
    requires start < |s| && s[start] == ETC_CHAR && forall k :: 0 <= k < start ==> s[k] != ETC_CHAR
    ensures DotsFine(s) <==> DotsAt(s, start)
  {
    if DotsFine(s) {
      var p: nat :| DotsAt(s, p);
      assert s[p] == ETC_CHAR;
    }
  }

  // ---- Queries ----

  predicate EtcAt(s: string, i: int) {
    0 <= i && i + 3 <= |s| && s[i..i + 3] == ETC_LAYOUT_DELIMETER
  }

  /** Position of the first "...". */
  function FindEtc(s: string): (r: Option<nat>)
    ensures r.Some? ==> EtcAt(s, r.value) && forall k :: 0 <= k < r.value ==> !EtcAt(s, k)
    ensures r.None? ==> forall k :: 0 <= k ==> !EtcAt(s, k)
  {
    FindEtcFrom(s, 0)
  }

  function FindEtcFrom(s: string, i: nat): (r: Option<nat>)
    requires i <= |s|
    ensures r.Some? ==> i <= r.value && EtcAt(s, r.value) && forall k :: i <= k < r.value ==> !EtcAt(s, k)
    ensures r.None? ==> forall k :: i <= k ==> !EtcAt(s, k)
    decreases |s| - i
  {
    if i + 3 > |s| then None
    else if EtcAt(s, i) then Some(i)
    else FindEtcFrom(s, i + 1)
  }

  /** In a valid layout "..." is found exactly where the dots are. */
  lemma FindEtcFinds(s: string)
    requires Valid(s)
    ensures FindEtc(s).None? <==> NoDots(s)
    ensures FindEtc(s).Some? ==> DotsAt(s, FindEtc(s).value)
  {
    var r := FindEtc(s);
    if r.Some? {
      EtcIsDots(s, r.value);
    }
    if !NoDots(s) {
      var p: nat :| DotsAt(s, p);
      assert EtcAt(s, p);
    }
  }

  lemma EtcIsDots(s: string, i: nat)
    requires EtcAt(s, i)
    ensures s[i] == s[i + 1] == s[i + 2] == ETC_CHAR
  {
    var run := s[i..i + 3];
    assert run[0] == s[i] && run[1] == s[i + 1] && run[2] == s[i + 2];
  }

  function CountKnown(s: string): (count: nat)
    ensures count <= |s|
  {
    if s == [] then 0 else (if s[0] != ETC_CHAR then 1 else 0) + CountKnown(s[1..])
  }

  lemma {:induction false} CountKnownConcat(s: string, t: string)
    ensures CountKnown(s + t) == CountKnown(s) + CountKnown(t)
  {
    if s == [] {
      assert s + t == t;
    } else {
      assert (s + t)[1..] == s[1..] + t;
      CountKnownConcat(s[1..], t);
    }
  }

  lemma {:induction false} CountKnownNoDots(s: string)
    requires NoDots(s)
    ensures CountKnown(s) == |s|
  {
    if s != [] {
      CountKnownNoDots(s[1..]);
    }
  }

  lemma CountKnownDots(s: string, p: nat)
    requires DotsAt(s, p)
    ensures CountKnown(s) == |s| - 3
  {
    var left, right := s[..p], s[p + 3..];
    assert s == left + (ETC_LAYOUT_DELIMETER + right) by {
      assert s[p..p + 3] == ETC_LAYOUT_DELIMETER;
    }
    CountKnownConcat(left, ETC_LAYOUT_DELIMETER + right);
    CountKnownConcat(ETC_LAYOUT_DELIMETER, right);
    CountKnownNoDots(left);
    CountKnownNoDots(right);
    assert CountKnown(ETC_LAYOUT_DELIMETER) == 0;
  }

  function Unknowns(n: nat): string {
    seq(n, i => UNDEFINED_DIMENSION_CHAR)
  }

  /** Replaces "..." by as many '?' as n dimensions need; None when there are too many known ones. */
  function Expand(s: string, n: nat): Option<string> {
    var etc := FindEtc(s);
    if etc.None? then Some(s)
    else if CountKnown(s) > n then None
    else Some(s[..etc.value] + Unknowns(n - CountKnown(s)) + s[etc.value + 3..])
  }

  // ---- What a layout means ----

  /** A completely expanded layout of n dimensions without a repeated letter. */
  ghost predicate Tensor(x: string, n: nat) {
    && |x| == n
    && (forall i :: 0 <= i < n ==> Letter(x[i]) || x[i] == UNDEFINED_DIMENSION_CHAR)
    && NoRepeat(x)
  }

  predicate Fits(pattern: char, c: char) {
    pattern == UNDEFINED_DIMENSION_CHAR || pattern == c
  }

  ghost predicate FitsAll(pattern: string, x: string) {
    |pattern| == |x| && forall i :: 0 <= i < |x| ==> Fits(pattern[i], x[i])
  }

  /** "..." stands for any number of dimensions, '?' for any one. */
  ghost predicate Matches(s: string, x: string) {
    if NoDots(s) then FitsAll(s, x)
    else exists p: nat :: DotsAt(s, p) && MatchesAround(s, p, x)
  }

  ghost predicate MatchesAround(s: string, p: nat, x: string)
    requires p + 3 <= |s|
  {
    var tail := |s| - (p + 3);
    p + tail <= |x| && FitsAll(s[..p], x[..p]) && FitsAll(s[p + 3..], x[|x| - tail..])
  }

  /** Expansion keeps the meaning: it exists when the known dimensions fit, and matches the same tensors. */
  lemma ExpandMatches(s: string, x: string)
    requires Valid(s)
    ensures Matches(s, x) <==> Expand(s, |x|).Some? && FitsAll(Expand(s, |x|).value, x)
  {
    FindEtcFinds(s);
    if !NoDots(s) {
      var p := FindEtc(s).value;
      CountKnownDots(s, p);
      assert forall q: nat :: DotsAt(s, q) ==> q == p by {
        forall q: nat | DotsAt(s, q) ensures q == p {
          OneRunOnly(s, p);
          assert s[q] == ETC_CHAR;
        }
      }
      if Expand(s, |x|).Some? {
        ExpandAround(s, p, x);
      }
    }
  }

  lemma ExpandAround(s: string, p: nat, x: string)
    requires DotsAt(s, p) && |s| - 3 <= |x|
    ensures
      var e := s[..p] + Unknowns(|x| - (|s| - 3)) + s[p + 3..];
      FitsAll(e, x) <==> MatchesAround(s, p, x)
  {
    var e := s[..p] + Unknowns(|x| - (|s| - 3)) + s[p + 3..];
    var tail := |s| - (p + 3);
    var start := |x| - tail;
    assert |e| == |x|;
    assert forall i :: 0 <= i < p ==> e[i] == s[..p][i] && x[..p][i] == x[i];
    assert forall i :: p <= i < start ==> e[i] == UNDEFINED_DIMENSION_CHAR;
    assert forall j :: 0 <= j < tail ==> e[start + j] == s[p + 3..][j] && x[start..][j] == x[start + j];
    if MatchesAround(s, p, x) {
      forall i | 0 <= i < |x| ensures Fits(e[i], x[i]) {
        if i < p {
          assert Fits(s[..p][i], x[..p][i]);
        } else if i >= start {
          assert Fits(s[p + 3..][i - start], x[start..][i - start]);
        }
      }
    }
  }

  /** The number of dimensions a valid layout can have: isCompatible. */
  function NumberOfKnownDimensions(s: string): nat {
    if s == [] then 0
    else (if Letter(s[0]) || s[0] == UNDEFINED_DIMENSION_CHAR then 1 else 0) + NumberOfKnownDimensions(s[1..])
  }

  predicate IsCompatible(s: string, dimensions: nat) {
    if FindEtc(s).Some? then NumberOfKnownDimensions(s) <= dimensions
    else NumberOfKnownDimensions(s) == dimensions
  }

  lemma {:induction false} KnownDimensionsAreKnown(s: string)
    requires OnlyAllowed(s)
    ensures NumberOfKnownDimensions(s) == CountKnown(s)
  {
    if s != [] {
      KnownDimensionsAreKnown(s[1..]);
    }
  }

  // ---- Intersection ----

  ghost predicate Agree(x: string, y: string)
    requires |x| == |y|
  {
    forall i :: 0 <= i < |x| ==> x[i] == UNDEFINED_DIMENSION_CHAR || y[i] == UNDEFINED_DIMENSION_CHAR || x[i] == y[i]
  }

  function Merge(x: string, y: string): string
    requires |x| == |y|
  {
    seq(|x|, i requires 0 <= i < |x| => if x[i] == UNDEFINED_DIMENSION_CHAR then y[i] else x[i])
  }

  /** The pointwise merge of both expansions, if it has n dimensions, no conflict and no repetition. */
  ghost function Meet(a: string, b: string, n: nat): Option<string> {
    var x, y := Expand(a, n), Expand(b, n);
    if x.Some? && y.Some? && |x.value| == |y.value| == n && Agree(x.value, y.value)
       && NoRepeat(Merge(x.value, y.value))
    then Some(Merge(x.value, y.value)) else None
  }

  /** The expansion of a valid layout is a tensor pattern. */
  lemma ExpandIsTensor(s: string, n: nat)
    requires Valid(s) && Expand(s, n).Some? && |Expand(s, n).value| == n
    ensures Tensor(Expand(s, n).value, n)
  {
    FindEtcFinds(s);
    var e := Expand(s, n).value;
    if !NoDots(s) {
      var p := FindEtc(s).value;
      CountKnownDots(s, p);
      var shift := |e| - |s|;
      assert forall i :: 0 <= i < p ==> e[i] == s[i];
      assert forall i :: p <= i < p + n - (|s| - 3) ==> e[i] == UNDEFINED_DIMENSION_CHAR;
      assert forall i :: p + n - (|s| - 3) <= i < n ==> e[i] == s[i - shift];
    }
  }

  lemma MeetIsTensor(a: string, b: string, n: nat)
    requires Valid(a) && Valid(b) && Meet(a, b, n).Some?
    ensures Tensor(Meet(a, b, n).value, n)
  {
    ExpandIsTensor(a, n);
    ExpandIsTensor(b, n);
  }

  /** A tensor matches both layouts exactly when the intersection exists and it matches that. */
  lemma MeetMatchesBoth(a: string, b: string, n: nat, x: string)
    requires Valid(a) && Valid(b) && Tensor(x, n)
    ensures Matches(a, x) && Matches(b, x) <==> Meet(a, b, n).Some? && FitsAll(Meet(a, b, n).value, x)
  {
    ExpandMatches(a, x);
    ExpandMatches(b, x);
    if Expand(a, n).Some? && Expand(b, n).Some? {
      var e, f := Expand(a, n).value, Expand(b, n).value;
      if FitsAll(e, x) && FitsAll(f, x) {
        ExpandIsTensor(a, n);
        ExpandIsTensor(b, n);
        MergeFits(e, f, x);
      }
    }
  }

  lemma MergeFits(e: string, f: string, x: string)
    requires FitsAll(e, x) && FitsAll(f, x) && NoRepeat(x)
    ensures Agree(e, f) && NoRepeat(Merge(e, f)) && FitsAll(Merge(e, f), x)
  {
    var m := Merge(e, f);
    forall i, j | 0 <= i < j < |m| && Letter(m[i]) ensures m[i] != m[j] {
      assert Fits(e[i], x[i]) && Fits(f[i], x[i]) && Fits(e[j], x[j]) && Fits(f[j], x[j]);
    }
  }

  /** The intersection is absent exactly when no n-dimensional tensor matches both layouts. */
  lemma MeetAbsentExactly(a: string, b: string, n: nat)
    requires Valid(a) && Valid(b)
    ensures Meet(a, b, n).None? <==> !exists x :: Tensor(x, n) && Matches(a, x) && Matches(b, x)
  {
    if Meet(a, b, n).Some? {
      var m := Meet(a, b, n).value;
      MeetIsTensor(a, b, n);
      MeetMatchesBoth(a, b, n, m);
    }
    if x :| Tensor(x, n) && Matches(a, x) && Matches(b, x) {
      MeetMatchesBoth(a, b, n, x);
    }
  }

  /** Patterns that fit each other are equal, so a pattern is determined by what fits it. */
  lemma FitsAntisymmetric(x: string, y: string)
    requires FitsAll(x, y) && FitsAll(y, x)
    ensures x == y
  {
    forall i | 0 <= i < |x| ensures x[i] == y[i] {
      assert Fits(x[i], y[i]) && Fits(y[i], x[i]);
    }
  }

  lemma MeetCommutes(a: string, b: string, n: nat)
    requires Valid(a) && Valid(b)
    ensures Meet(a, b, n) == Meet(b, a, n)
  {
    MeetIncludes(a, b, n);
    MeetIncludes(b, a, n);
    if Meet(a, b, n).Some? {
      FitsAntisymmetric(Meet(a, b, n).value, Meet(b, a, n).value);
    }
  }

  lemma MeetIncludes(a: string, b: string, n: nat)
    requires Valid(a) && Valid(b)
    ensures Meet(a, b, n).Some? ==> Meet(b, a, n).Some? && FitsAll(Meet(b, a, n).value, Meet(a, b, n).value)
  {
    if Meet(a, b, n).Some? {
      var m := Meet(a, b, n).value;
      MeetIsTensor(a, b, n);
      MeetMatchesBoth(a, b, n, m);
      MeetMatchesBoth(b, a, n, m);
    }
  }

  /** Intersection of a result that may be absent. */
  ghost function MeetLeft(m: Option<string>, c: string, n: nat): Option<string> {
    if m.None? then None else Meet(m.value, c, n)
  }

  ghost function MeetRight(a: string, m: Option<string>, n: nat): Option<string> {
    if m.None? then None else Meet(a, m.value, n)
  }

  lemma TensorIsValid(x: string, n: nat)
    requires Tensor(x, n)
    ensures Valid(x) && (forall y :: Matches(x, y) <==> FitsAll(x, y))
  {
    assert NoDots(x);
  }

  lemma MeetThreeLeft(a: string, b: string, c: string, n: nat, x: string)
    requires Valid(a) && Valid(b) && Valid(c) && Tensor(x, n)
    ensures
      var l := MeetLeft(Meet(a, b, n), c, n);
      Matches(a, x) && Matches(b, x) && Matches(c, x) <==> l.Some? && FitsAll(l.value, x)
    ensures MeetLeft(Meet(a, b, n), c, n).Some? ==> Tensor(MeetLeft(Meet(a, b, n), c, n).value, n)
  {
    MeetMatchesBoth(a, b, n, x);
    if Meet(a, b, n).Some? {
      var m := Meet(a, b, n).value;
      MeetIsTensor(a, b, n);
      TensorIsValid(m, n);
      MeetMatchesBoth(m, c, n, x);
      if Meet(m, c, n).Some? {
        MeetIsTensor(m, c, n);
      }
    }
  }

  lemma MeetThreeRight(a: string, b: string, c: string, n: nat, x: string)
    requires Valid(a) && Valid(b) && Valid(c) && Tensor(x, n)
    ensures
      var r := MeetRight(a, Meet(b, c, n), n);
      Matches(a, x) && Matches(b, x) && Matches(c, x) <==> r.Some? && FitsAll(r.value, x)
    ensures MeetRight(a, Meet(b, c, n), n).Some? ==> Tensor(MeetRight(a, Meet(b, c, n), n).value, n)
  {
    MeetMatchesBoth(b, c, n, x);
    if Meet(b, c, n).Some? {
      var m := Meet(b, c, n).value;
      MeetIsTensor(b, c, n);
      TensorIsValid(m, n);
      MeetMatchesBoth(a, m, n, x);
      if Meet(a, m, n).Some? {
        MeetIsTensor(a, m, n);
      }
    }
  }

  /** Associative, absence included. */
  lemma MeetAssociates(a: string, b: string, c: string, n: nat)
    requires Valid(a) && Valid(b) && Valid(c)
    ensures MeetLeft(Meet(a, b, n), c, n) == MeetRight(a, Meet(b, c, n), n)
  {
    var l, r := MeetLeft(Meet(a, b, n), c, n), MeetRight(a, Meet(b, c, n), n);
    var any := Unknowns(n);
    MeetThreeLeft(a, b, c, n, any);
    MeetThreeRight(a, b, c, n, any);
    if l.Some? {
      MeetThreeLeft(a, b, c, n, l.value);
      MeetThreeRight(a, b, c, n, l.value);
    }
    if r.Some? {
      MeetThreeLeft(a, b, c, n, r.value);
      MeetThreeRight(a, b, c, n, r.value);
    }
    if l.Some? && r.Some? {
      FitsAntisymmetric(l.value, r.value);
    }
  }

  /** Idempotent up to expansion. */
  lemma MeetIdempotent(a: string, n: nat)
    requires Valid(a)
    ensures
      Meet(a, a, n) == if Expand(a, n).Some? && |Expand(a, n).value| == n then Expand(a, n) else None
  {
    if Expand(a, n).Some? && |Expand(a, n).value| == n {
      var e := Expand(a, n).value;
      ExpandIsTensor(a, n);
      assert Merge(e, e) == e;
    }
  }

  /** isCompatible: some tensor with this number of dimensions matches the layout. */
  lemma CompatibleExactly(s: string, dimensions: nat)
    requires Valid(s)
    ensures IsCompatible(s, dimensions) <==> exists x :: Tensor(x, dimensions) && Matches(s, x)
  {
    FindEtcFinds(s);
    KnownDimensionsAreKnown(s);
    if NoDots(s) {
      CountKnownNoDots(s);
    } else {
      CountKnownDots(s, FindEtc(s).value);
    }
    if IsCompatible(s, dimensions) {
      var e := Expand(s, dimensions).value;
      ExpandIsTensor(s, dimensions);
      ExpandMatches(s, e);
    }
    if x :| Tensor(x, dimensions) && Matches(s, x) {
      ExpandMatches(s, x);
    }
  }

  // ---- The layout object: its characters and the batch index computed by its constructor ----

  datatype LayoutValue = LayoutValue(chars: string, batchIndex: Option<nat>)

  /** Position of the first c, as std::string::find. */
  function IndexOf(s: string, c: char): (r: Option<nat>)
    ensures r.Some? ==> r.value < |s| && s[r.value] == c && c !in s[..r.value]
    ensures r.None? ==> c !in s
  {
    if s == [] then None
    else if s[0] == c then Some(0)
    else
      var rest := IndexOf(s[1..], c);
      if rest.None? then None
      else
        assert s[..rest.value + 1] == [s[0]] + s[1..][..rest.value];
        Some(rest.value + 1)
  }

  /** The position of N in every tensor, where the layout fixes it: N before any "...". */
  ghost function BatchIndexOf(s: string): Option<nat> {
    if !Valid(s) || s == ETC_LAYOUT_DELIMETER then None
    else
      var batchPos, etcPos := IndexOf(s, 'N'), FindEtc(s);
      if batchPos.None? || (etcPos.Some? && batchPos.value > etcPos.value) then None else batchPos
  }

  /** The batch index of a valid layout is the position at which every tensor that it describes has its N. */
  ghost predicate FixesBatchAt(s: string, k: nat) {
    forall x: string :: Tensor(x, |x|) && Matches(s, x) ==> k < |x| && x[k] == 'N'
  }

  lemma BatchIndexExactly(s: string, k: nat)
    requires Valid(s)
    ensures BatchIndexOf(s) == Some(k) <==> FixesBatchAt(s, k)
  {
    FindEtcFinds(s);
    if BatchIndexOf(s) == Some(k) {
      forall x: string | Tensor(x, |x|) && Matches(s, x) ensures k < |x| && x[k] == 'N' {
        ExpandMatches(s, x);
        assert Expand(s, |x|).value[k] == 'N';
      }
    }
    if FixesBatchAt(s, k) {
      FixedIsFound(s, k);
    }
  }

  lemma FixedIsFound(s: string, k: nat)
    requires Valid(s) && FixesBatchAt(s, k)
    ensures BatchIndexOf(s) == Some(k)
  {
    FindEtcFinds(s);
    var n := CountKnown(s);
    if NoDots(s) {
      CountKnownNoDots(s);
      SelfMatch(s, n);
    } else {
      CountKnownDots(s, FindEtc(s).value);
      SelfMatch(s, n);
      SelfMatch(s, n + 1);
      FixedBeforeDots(s, FindEtc(s).value, k);
    }
    OnlyName(s, k);
  }

  /** Two tensors of different sizes tell a position before the dots from one behind them. */
  lemma FixedBeforeDots(s: string, p: nat, k: nat)
    requires DotsAt(s, p)
    requires
      var x, y := s[..p] + Unknowns(0) + s[p + 3..], s[..p] + Unknowns(1) + s[p + 3..];
      NoRepeat(x) && k < |x| && x[k] == 'N' && y[k] == 'N'
    ensures k < p && s[k] == 'N'
  {
    var x, y := s[..p] + Unknowns(0) + s[p + 3..], s[..p] + Unknowns(1) + s[p + 3..];
    assert y[p] == UNDEFINED_DIMENSION_CHAR;
    assert forall i :: p < i < |y| ==> y[i] == x[i - 1];
  }

  lemma OnlyName(s: string, k: nat)
    requires Valid(s) && k < |s| && s[k] == 'N' && (FindEtc(s).Some? ==> k < FindEtc(s).value)
    ensures BatchIndexOf(s) == Some(k)
  {
    FindEtcFinds(s);
    var first := IndexOf(s, 'N');
    assert first.Some? && s[first.value] == 'N';
    assert s != ETC_LAYOUT_DELIMETER;
  }

  /** An expansion without repeated letters is one of the tensors described. */
  lemma SelfMatch(s: string, n: nat)
    requires Valid(s) && Expand(s, n).Some? && |Expand(s, n).value| == n
    ensures Tensor(Expand(s, n).value, n) && Matches(s, Expand(s, n).value)
  {
    ExpandIsTensor(s, n);
    ExpandMatches(s, Expand(s, n).value);
  }

  /** The constructor. */
  method MakeLayout(s: string) returns (l: LayoutValue)
    ensures l == LayoutValue(s, BatchIndexOf(s)) && BatchSound(l)
  {
    var batchIndex := RetrieveBatchIndex(s);
    l := LayoutValue(s, batchIndex);
    ConstructedIsSound(s);
  }

  /** Nothing for an invalid layout, otherwise the position at which every described tensor has its N. */
  method RetrieveBatchIndex(s: string) returns (r: Option<nat>)
    ensures r == BatchIndexOf(s)
    ensures !Valid(s) ==> r == None
    ensures Valid(s) ==> forall k: nat :: r == Some(k) <==> FixesBatchAt(s, k)
  {
    if Valid(s) {
      forall k: nat ensures BatchIndexOf(s) == Some(k) <==> FixesBatchAt(s, k) {
        BatchIndexExactly(s, k);
      }
    }
    var ok := Validate(s);
    if !ok {
      return None;
    }
    var batchPos := IndexOf(s, 'N');
    var etcPos := FindEtc(s);
    if s == ETC_LAYOUT_DELIMETER {
      return None;
    }
    if batchPos.None? {
      return None;
    }
    if etcPos.Some? && batchPos.value > etcPos.value {
      return None;
    }
    r := batchPos;
  }

  /** One occurrence of a letter that both patterns cannot share. */
  predicate Fresh(e: string, f: string, k: nat)
    requires |e| == |f| && k < |e|
  {
    e[k] == UNDEFINED_DIMENSION_CHAR && f[k] != UNDEFINED_DIMENSION_CHAR ==>
      f[k] !in Merge(e, f)[..k] && f[k] !in e[k..]
  }

  lemma FreshMeansNoRepeat(e: string, f: string)
    requires |e| == |f| && NoRepeat(e) && forall k :: 0 <= k < |e| ==> Fresh(e, f, k)
    ensures NoRepeat(Merge(e, f))
  {
    var m := Merge(e, f);
    forall i, j | 0 <= i < j < |m| && Letter(m[i]) ensures m[i] != m[j] {
      assert Fresh(e, f, i) && Fresh(e, f, j);
      assert m[..j][i] == m[i] && e[i..][j - i] == e[j];
    }
  }

  /** A letter of f found elsewhere in the partly merged pattern repeats in the merge. */
  lemma FoundMeansAbsent(e: string, f: string, i: nat, j: nat)
    requires |e| == |f| && i < |e| && j < |e|
    requires Letter(f[i]) && e[i] != f[i]
    requires f[i] == if j < i then Merge(e, f)[j] else e[j]
    ensures !Agree(e, f) || !NoRepeat(Merge(e, f))
  {
    var m := Merge(e, f);
    if Agree(e, f) {
      assert m[i] == f[i] && m[j] == f[i] && i != j;
      assert m[if i < j then i else j] == m[if i < j then j else i];
    }
  }

  /** The rewriting of one operand: "..." becomes '?' for the unknown dimensions. */
  method ReplaceEtc(layout: string, numberOfDimensions: nat) returns (r: Option<string>)
    ensures r == Expand(layout, numberOfDimensions)
  {
    var etc := FindEtc(layout);
    if etc.None? {
      return Some(layout);
    }
    var knownDimensions := CountKnown(layout);
    if knownDimensions > numberOfDimensions {
      return None;
    }
    var unknownDimensions := numberOfDimensions - knownDimensions;
    r := Some(layout[..etc.value] + Unknowns(unknownDimensions) + layout[etc.value + 3..]);
  }

  /** The loop that merges the right operand into the left one. */
  method MergeInPlace(e: string, f: string) returns (r: Option<string>)
    requires |e| == |f|
    ensures Tensor(e, |e|) && Tensor(f, |e|) ==>
              r == if Agree(e, f) && NoRepeat(Merge(e, f)) then Some(Merge(e, f)) else None
  {
    var lhs := e;
    for i := 0 to |lhs|
      invariant |lhs| == |e|
      invariant forall k :: 0 <= k < i ==> lhs[k] == Merge(e, f)[k]
      invariant forall k :: i <= k < |e| ==> lhs[k] == e[k]
      invariant AgreeUpTo(e, f, i)
      invariant forall k :: 0 <= k < i ==> Fresh(e, f, k)
    {
      if lhs[i] == f[i] {
        continue;
      }
      if f[i] != UNDEFINED_DIMENSION_CHAR && IndexOf(lhs, f[i]).Some? {
        if Letter(f[i]) {
          FoundMeansAbsent(e, f, i, IndexOf(lhs, f[i]).value);
        }
        return None;
      }
      if f[i] != UNDEFINED_DIMENSION_CHAR {
        NotFound(lhs, e, f, i);
      }
      if lhs[i] == UNDEFINED_DIMENSION_CHAR {
        lhs := lhs[i := f[i]];
        continue;
      }
      if f[i] == UNDEFINED_DIMENSION_CHAR {
        continue;
      }
      return None;
    }
    assert lhs == Merge(e, f);
    if NoRepeat(e) {
      FreshMeansNoRepeat(e, f);
    }
    r := Some(lhs);
  }

  ghost predicate AgreeUpTo(e: string, f: string, i: nat)
    requires |e| == |f| && i <= |e|
  {
    forall k :: 0 <= k < i ==> e[k] == UNDEFINED_DIMENSION_CHAR || f[k] == UNDEFINED_DIMENSION_CHAR || e[k] == f[k]
  }

  /**
   * Rewrites a copy of the left layout; for valid layouts the result is the exact
   * intersection, with the batch index copied from the left one.
   */
  method CreateIntersection(a: LayoutValue, b: LayoutValue, numberOfDimensions: nat) returns (r: Option<LayoutValue>)
    ensures Valid(a.chars) && Valid(b.chars) ==>
              r == var m := Meet(a.chars, b.chars, numberOfDimensions);
                   if m.None? then None else Some(LayoutValue(m.value, a.batchIndex))
    ensures Valid(a.chars) && Valid(b.chars) && BatchSound(a) && r.Some? ==>
              Valid(r.value.chars) && BatchSound(r.value)
  {
    var lhs := ReplaceEtc(a.chars, numberOfDimensions);
    if lhs.None? {
      return None;
    }
    var rhs := ReplaceEtc(b.chars, numberOfDimensions);
    if rhs.None? {
      return None;
    }
    if |lhs.value| != |rhs.value| || |lhs.value| != numberOfDimensions {
      return None;
    }
    if Valid(a.chars) && Valid(b.chars) {
      ExpandIsTensor(a.chars, numberOfDimensions);
      ExpandIsTensor(b.chars, numberOfDimensions);
    }
    var merged := MergeInPlace(lhs.value, rhs.value);
    r := if merged.None? then None else Some(LayoutValue(merged.value, a.batchIndex));
    if Valid(a.chars) && Valid(b.chars) && BatchSound(a) && r.Some? {
      CopiedIndexIsSound(a, b, numberOfDimensions);
      MeetIsTensor(a.chars, b.chars, numberOfDimensions);
      TensorIsValid(r.value.chars, numberOfDimensions);
    }
  }

  lemma NotFound(lhs: string, e: string, f: string, i: nat)
    requires |lhs| == |e| == |f| && i < |e| && f[i] !in lhs
    requires forall k :: 0 <= k < i ==> lhs[k] == Merge(e, f)[k]
    requires forall k :: i <= k < |e| ==> lhs[k] == e[k]
    ensures Fresh(e, f, i)
  {
    assert Merge(e, f)[..i] == lhs[..i];
    assert e[i..] == lhs[i..];
    assert lhs == lhs[..i] + lhs[i..];
  }

  // ---- The copied batch index ----

  /** N stands at the batch index of the layout and of everything it can be expanded to. */
  ghost predicate BatchSound(l: LayoutValue) {
    l.batchIndex.Some? ==>
      && l.batchIndex.value < |l.chars| && l.chars[l.batchIndex.value] == 'N'
      && (FindEtc(l.chars).Some? ==> l.batchIndex.value < FindEtc(l.chars).value)
  }

  lemma ConstructedIsSound(s: string)
    ensures BatchSound(LayoutValue(s, BatchIndexOf(s)))
  {
    if BatchIndexOf(s).Some? && FindEtc(s).Some? {
      EtcIsDots(s, FindEtc(s).value);
    }
  }

  /** A batch index that the result carries names the N of the result. */
  lemma CopiedIndexIsSound(a: LayoutValue, b: LayoutValue, n: nat)
    requires Valid(a.chars) && Valid(b.chars) && BatchSound(a) && Meet(a.chars, b.chars, n).Some?
    ensures BatchSound(LayoutValue(Meet(a.chars, b.chars, n).value, a.batchIndex))
  {
    var m := Meet(a.chars, b.chars, n).value;
    MeetIsTensor(a.chars, b.chars, n);
    TensorIsValid(m, n);
    FindEtcFinds(m);
    if a.batchIndex.Some? {
      assert Expand(a.chars, n).value[a.batchIndex.value] == 'N';
    }
  }

  /**
   * But the result is not the layout that its own characters would construct: its batch
   * index is the right one if and only if the left layout has one or no layout names N.
   */
  lemma CopiedIndexExactly(a: LayoutValue, b: LayoutValue, n: nat)
    requires Valid(a.chars) && Valid(b.chars) && BatchSound(a) && Meet(a.chars, b.chars, n).Some?
    ensures
      a.batchIndex == BatchIndexOf(Meet(a.chars, b.chars, n).value)
      <==> a.batchIndex.Some? || ('N' !in a.chars && 'N' !in b.chars)
  {
    var m := Meet(a.chars, b.chars, n).value;
    CopiedIndexIsSound(a, b, n);
    MeetIsTensor(a.chars, b.chars, n);
    BatchIndexOfTensor(m, n);
    NameSurvives(a.chars, b.chars, n);
  }

  /**
   * For two constructed layouts: the copied index names the N of the intersection, and it is the
   * index that constructing the intersection would compute if and only if the left layout fixes the
   * position of its N or no layout names N.
   */
  lemma IntersectionOfConstructed(a: string, b: string, n: nat)
    requires Valid(a) && Valid(b) && Meet(a, b, n).Some?
    ensures
      var m, copied := Meet(a, b, n).value, BatchIndexOf(a);
      && (copied.Some? ==> copied.value < |m| && m[copied.value] == 'N')
      && (copied == BatchIndexOf(m) <==> copied.Some? || ('N' !in a && 'N' !in b))
  {
    var left, right := LayoutValue(a, BatchIndexOf(a)), LayoutValue(b, BatchIndexOf(b));
    ConstructedIsSound(a);
    CopiedIndexIsSound(left, right, n);
    CopiedIndexExactly(left, right, n);
  }

  /** A layout without dots has its batch index at its only N. */
  lemma BatchIndexOfTensor(m: string, n: nat)
    requires Tensor(m, n)
    ensures BatchIndexOf(m).None? <==> 'N' !in m
    ensures forall k :: 0 <= k < |m| && m[k] == 'N' ==> BatchIndexOf(m) == Some(k)
  {
    TensorIsValid(m, n);
    FindEtcFinds(m);
    var first := IndexOf(m, 'N');
    assert first.Some? ==> m[first.value] == 'N';
  }

  /** The intersection names N exactly when one of the layouts does. */
  lemma NameSurvives(a: string, b: string, n: nat)
    requires Valid(a) && Valid(b) && Meet(a, b, n).Some?
    ensures 'N' in Meet(a, b, n).value <==> 'N' in a || 'N' in b
  {
    ExpandKeepsName(a, n);
    ExpandKeepsName(b, n);
    var e, f, m := Expand(a, n).value, Expand(b, n).value, Meet(a, b, n).value;
    if 'N' in m {
      var i :| 0 <= i < |m| && m[i] == 'N';
      assert e[i] == 'N' || f[i] == 'N';
    }
    if 'N' in e {
      var i :| 0 <= i < |e| && e[i] == 'N';
      assert m[i] == 'N';
    }
    if 'N' in f {
      var i :| 0 <= i < |f| && f[i] == 'N';
      assert m[i] == 'N';
    }
  }

  lemma ExpandKeepsName(s: string, n: nat)
    requires Valid(s) && Expand(s, n).Some?
    ensures 'N' in Expand(s, n).value <==> 'N' in s
  {
    FindEtcFinds(s);
    if !NoDots(s) {
      var p := FindEtc(s).value;
      assert s == s[..p] + s[p..p + 3] + s[p + 3..];
      assert 'N' !in Unknowns(n - CountKnown(s));
      assert 'N' !in s[p..p + 3];
    }
  }
}
