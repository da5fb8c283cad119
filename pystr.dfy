/** The few pieces of Python's `str` and `list` behaviour the handlers rely on:
    `split` on a one-character separator, `join`, negative indexing, `endswith`,
    `s[-n:]` and `os.path.basename`. */
module PyStr {
  import opened Common

  /** Number of occurrences of `c` in `s`. */
  function Count(s: string, c: char): nat
  {
    if s == [] then 0 else (if s[0] == c then 1 else 0) + Count(s[1..], c)
  }

  /** Python's `s.split(sep)` for a one-character separator: the separator-free
      fields that lie between separators, in order, empty fields included. */
  function Split(s: string, sep: char): (parts: seq<string>)
    ensures |parts| == Count(s, sep) + 1
    ensures forall i :: 0 <= i < |parts| ==> sep !in parts[i]
    decreases |s|
  {
    if s == [] then [""]
    else if s[0] == sep then [""] + Split(s[1..], sep)
    else
      var rest := Split(s[1..], sep);
      [[s[0]] + rest[0]] + rest[1..]
  }

  /** Python's `sep.join(parts)`. */
  function Join(sep: string, parts: seq<string>): string
  {
    if |parts| == 0 then ""
    else if |parts| == 1 then parts[0]
    else parts[0] + sep + Join(sep, parts[1..])
  }

  function Last<T>(xs: seq<T>): T
    requires |xs| > 0
  {
    xs[|xs| - 1]
  }

  /** Python's `xs[i]`, negative indices counting from the end; `None` is the IndexError. */
  function PyIndex<T>(xs: seq<T>, i: int): (r: Option<T>)
    ensures r.Some? <==> -|xs| <= i < |xs|
    ensures 0 <= i < |xs| ==> r == Some(xs[i])
    ensures -|xs| <= i < 0 ==> r == Some(xs[|xs| + i])
  {
    if 0 <= i < |xs| then Some(xs[i])
    else if -|xs| <= i < 0 then Some(xs[|xs| + i])
    else None
  }

  /** Python's `s.endswith(suffix)`. */
  predicate EndsWith(s: string, suffix: string)
  {
    |suffix| <= |s| && s[|s| - |suffix|..] == suffix
  }

  /** Python's `s[-n:]` for `n >= 0`: the last `n` characters, or all of `s` when it is
      shorter; since `-0` is `0`, `s[-0:]` is all of `s` as well. */
  function TakeLast(s: string, n: nat): (r: string)
    ensures |r| == if n == 0 || |s| < n then |s| else n
    ensures EndsWith(s, r)
    ensures n == 0 ==> r == s
  {
    if n == 0 || |s| < n then s else s[|s| - n..]
  }

  /** `os.path.basename(p)`: everything after the last `/`. */
  function Basename(p: string): (r: string)
    ensures '/' !in r
    ensures EndsWith(p, r)
    ensures '/' !in p ==> r == p
  {
    var parts := Split(p, '/');
    LastFieldIsSuffix(p, '/');
    if '/' !in p then SplitWithoutSeparator(p, '/'); Last(parts) else Last(parts)
  }

  // ---------------------------------------------------------------------------
  // Split and Join

  lemma {:induction false} SplitWithoutSeparator(s: string, sep: char)
    requires sep !in s
    ensures Split(s, sep) == [s]
    decreases |s|
  {
    if s != [] {
      assert s[0] != sep;
      assert sep !in s[1..];
      SplitWithoutSeparator(s[1..], sep);
      assert s == [s[0]] + s[1..];
    }
  }

  /** A separator splits the string into the fields on its left followed by those on its right. */
  lemma {:induction false} SplitConcat(a: string, sep: char, b: string)
    ensures Split(a + [sep] + b, sep) == Split(a, sep) + Split(b, sep)
    decreases |a|
  {
    if a == [] {
      assert a + [sep] + b == [sep] + b;
      assert ([sep] + b)[1..] == b;
    } else {
      var s := a + [sep] + b;
      assert s[0] == a[0];
      assert s[1..] == a[1..] + [sep] + b;
      SplitConcat(a[1..], sep, b);
    }
  }

  /** Appending to a string that ends with a separator continues its last, empty, field. */
  lemma SplitAfterSeparator(a: string, sep: char, b: string)
    requires |a| > 0 && a[|a| - 1] == sep
    ensures var p := Split(a, sep);
      p[|p| - 1] == "" && Split(a + b, sep) == p[..|p| - 1] + Split(b, sep)
  {
    var a0 := a[..|a| - 1];
    assert a == a0 + [sep] + "";
    assert a + b == a0 + [sep] + b;
    SplitConcat(a0, sep, "");
    SplitConcat(a0, sep, b);
    var p := Split(a, sep);
    assert p[..|p| - 1] == Split(a0, sep);
  }

  /** Joining the fields with the separator gives back the string. */
  lemma {:induction false} JoinSplit(s: string, sep: char)
    ensures Join([sep], Split(s, sep)) == s
    decreases |s|
  {
    if s != [] {
      var p := Split(s[1..], sep);
      JoinSplit(s[1..], sep);
      if s[0] == sep {
        assert Split(s, sep) == [""] + p;
        assert ([""] + p)[1..] == p;
      } else {
        assert Split(s, sep) == [[s[0]] + p[0]] + p[1..];
        if |p| == 1 {
          assert Join([sep], p) == p[0];
        } else {
          assert Join([sep], p) == p[0] + [sep] + Join([sep], p[1..]);
          assert ([[s[0]] + p[0]] + p[1..])[1..] == p[1..];
        }
      }
    }
  }

  /** Splitting a join of separator-free fields gives back the fields. */
  lemma {:induction false} SplitJoin(parts: seq<string>, sep: char)
    requires |parts| >= 1
    requires forall i :: 0 <= i < |parts| ==> sep !in parts[i]
    ensures Split(Join([sep], parts), sep) == parts
    decreases |parts|
  {
    SplitWithoutSeparator(parts[0], sep);
    if |parts| > 1 {
      SplitJoin(parts[1..], sep);
      SplitConcat(parts[0], sep, Join([sep], parts[1..]));
      assert [parts[0]] + parts[1..] == parts;
    }
  }

  /** `join` keeps the order of its parts: joining a concatenation is joining the halves. */
  lemma {:induction false} JoinAppend(sep: string, a: seq<string>, b: seq<string>)
    requires |a| > 0 && |b| > 0
    ensures Join(sep, a + b) == Join(sep, a) + sep + Join(sep, b)
    decreases |a|
  {
    if |a| == 1 {
      assert (a + b)[1..] == b;
    } else {
      JoinAppend(sep, a[1..], b);
      assert (a + b)[1..] == a[1..] + b;
    }
  }

  /** The first field is a prefix of the string, followed by a separator unless it is all of it. */
  lemma {:induction false} FirstFieldIsPrefix(s: string, sep: char)
    ensures var f := Split(s, sep)[0];
      |f| <= |s| && s[..|f|] == f && (|f| < |s| ==> s[|f|] == sep) && (sep !in s ==> f == s)
    decreases |s|
  {
    if sep !in s {
      SplitWithoutSeparator(s, sep);
    } else if s != [] && s[0] != sep {
      FirstFieldIsPrefix(s[1..], sep);
    }
  }

  /** The last field is a suffix of the string, preceded by a separator unless it is all of it. */
  lemma {:induction false} LastFieldIsSuffix(s: string, sep: char)
    ensures var f := Last(Split(s, sep));
      |f| <= |s| && s[|s| - |f|..] == f && (|f| < |s| ==> s[|s| - |f| - 1] == sep)
    decreases |s|
  {
    if s != [] {
      LastFieldIsSuffix(s[1..], sep);
      LastOfSplit(s, sep);
      var f := Last(Split(s[1..], sep));
      if |f| == |s| - 1 {
        assert f == s[1..];
        SplitWithoutSeparator(s[1..], sep);
      } else {
        JoinSplit(s[1..], sep);
      }
      SuffixStep(s, f, Last(Split(s, sep)), sep);
    }
  }

  /** The last field of `s` in terms of the split of `s[1..]`. */
  lemma LastOfSplit(s: string, sep: char)
    requires s != []
    ensures var p := Split(s[1..], sep);
      Last(Split(s, sep)) == if s[0] != sep && |p| == 1 then [s[0]] + p[0] else Last(p)
  {
  }

  /** The step of `LastFieldIsSuffix`: a suffix `f` of `s[1..]` after a separator, or
      all of it, and the field `g` of `s` it gives. */
  lemma SuffixStep(s: string, f: string, g: string, sep: char)
    requires s != [] && |f| <= |s| - 1 && s[1..][|s| - 1 - |f|..] == f
    requires |f| < |s| - 1 ==> s[1..][|s| - 1 - |f| - 1] == sep
    requires |f| == |s| - 1 && s[0] != sep ==> g == [s[0]] + f
    requires |f| < |s| - 1 || s[0] == sep ==> g == f
    ensures |g| <= |s| && s[|s| - |g|..] == g && (|g| < |s| ==> s[|s| - |g| - 1] == sep)
  {
    if |f| == |s| - 1 && s[0] != sep {
      assert s == [s[0]] + s[1..];
    } else {
      assert s[1..][|s| - 1 - |f|..] == s[|s| - |f|..];
      if |f| < |s| - 1 {
        assert s[|s| - |f| - 1] == s[1..][|s| - 1 - |f| - 1];
      }
    }
  }

  /** `sep.join(parts)` opens with the first part and closes with the last, with a
      separator after the first when there are more; no parts join to "". */
  lemma {:induction false} JoinEnds(sep: string, parts: seq<string>)
    ensures parts == [] ==> Join(sep, parts) == ""
    ensures |parts| > 0 ==> var r := Join(sep, parts);
      |parts[0]| <= |r| && r[..|parts[0]|] == parts[0] && EndsWith(r, Last(parts))
    ensures |parts| > 1 ==> var r := Join(sep, parts);
      |r| >= |parts[0]| + |sep| && r[|parts[0]|..|parts[0]| + |sep|] == sep
    decreases |parts|
  {
    if |parts| > 1 {
      JoinEnds(sep, parts[1..]);
      var rest := Join(sep, parts[1..]);
      assert Last(parts[1..]) == Last(parts);
      assert (parts[0] + sep + rest)[|parts[0] + sep + rest| - |rest|..] == rest;
      assert (parts[0] + sep + rest)[|parts[0]|..|parts[0]| + |sep|] == sep;
    }
  }
}
