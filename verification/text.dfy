/** Python string primitives the backend relies on, written over `seq<char>`. */
module Text {

  /** Python's `str.isspace` (and the `\s` class of `re` on str patterns, which uses the same table). */
  predicate IsSpace(c: char)
  {
    || c == ' '
    || ('\t' <= c <= '\r')
    || ('\U{1c}' <= c <= '\U{1f}')
    || c == '\U{85}' || c == '\U{a0}' || c == '\U{1680}'
    || ('\U{2000}' <= c <= '\U{200a}')
    || c == '\U{2028}' || c == '\U{2029}' || c == '\U{202f}' || c == '\U{205f}' || c == '\U{3000}'
  }

  predicate IsPipe(c: char) { c == '|' }

  predicate AllSatisfy(s: string, p: char -> bool)
  {
    forall k :: 0 <= k < |s| ==> p(s[k])
  }

  /** Where the run of characters satisfying `drop` that starts at `i` ends. */
  function RunEnd(s: string, drop: char -> bool, i: nat): (n: nat)
    requires i <= |s|
    ensures i <= n <= |s|
    ensures forall k :: i <= k < n ==> drop(s[k])
    ensures n < |s| ==> !drop(s[n])
    decreases |s| - i
  {
    if i < |s| && drop(s[i]) then RunEnd(s, drop, i + 1) else i
  }

  /** Where the run of characters satisfying `drop` that ends just before `j` starts. */
  function RunStart(s: string, drop: char -> bool, j: nat): (n: nat)
    requires j <= |s|
    ensures n <= j
    ensures forall k :: n <= k < j ==> drop(s[k])
    ensures n > 0 ==> !drop(s[n - 1])
    decreases j
  {
    if j > 0 && drop(s[j - 1]) then RunStart(s, drop, j - 1) else j
  }

  /** Removes the leading characters that satisfy `drop`. */
  function TrimStart(s: string, drop: char -> bool): (r: string)
    ensures |r| <= |s|
    ensures AllSatisfy(s[..|s| - |r|], drop)
    ensures |r| > 0 ==> !drop(r[0])
  {
    var n := RunEnd(s, drop, 0);
    assert AllSatisfy(s[..n], drop) by {
      forall k | 0 <= k < n ensures drop(s[..n][k]) {
        assert s[..n][k] == s[k];
      }
    }
    s[n..]
  }

  /** Removes the trailing characters that satisfy `drop`. */
  function TrimEnd(s: string, drop: char -> bool): (r: string)
    ensures |r| <= |s|
    ensures AllSatisfy(s[|r|..], drop)
    ensures |r| > 0 ==> !drop(r[|r| - 1])
  {
    var n := RunStart(s, drop, |s|);
    assert AllSatisfy(s[n..], drop) by {
      forall k | 0 <= k < |s| - n ensures drop(s[n..][k]) {
        assert s[n..][k] == s[n + k];
      }
    }
    s[..n]
  }

  /** Python's `s.strip(chars)`, the characters to remove given as a predicate. */
  function StripBy(s: string, drop: char -> bool): string
  {
    TrimEnd(TrimStart(s, drop), drop)
  }

  /** `strip` keeps one contiguous piece of the text: everything before it and after it is
      removable, and the piece neither starts nor ends with a removable character. */
  lemma StripBySlice(s: string, drop: char -> bool)
    ensures var i := StripOffset(s, drop);
            var r := StripBy(s, drop);
            && i + |r| <= |s| && r == s[i..i + |r|]
            && AllSatisfy(s[..i], drop) && AllSatisfy(s[i + |r|..], drop)
    ensures |StripBy(s, drop)| > 0 ==> !drop(StripBy(s, drop)[0]) && !drop(StripBy(s, drop)[|StripBy(s, drop)| - 1])
  {
    var t := TrimStart(s, drop);
    var r := TrimEnd(t, drop);
    var i := |s| - |t|;
    forall k | 0 <= k < |r| ensures r[k] == s[i + k] {
      assert r[k] == t[k];
    }
    var after := s[i + |r|..];
    forall k | 0 <= k < |after| ensures drop(after[k]) {
      assert after[k] == t[|r|..][k];
    }
  }

  /** Where the piece `strip` keeps begins. */
  function StripOffset(s: string, drop: char -> bool): nat
  {
    |s| - |TrimStart(s, drop)|
  }

  /** Python's `s.strip()` with no argument. */
  function Strip(s: string): string
  {
    StripBy(s, IsSpace)
  }

  /** Python's `sep.join(parts)`. */
  function Join(parts: seq<string>, sep: string): string
  {
    if |parts| == 0 then ""
    else if |parts| == 1 then parts[0]
    else parts[0] + sep + Join(parts[1..], sep)
  }

  /** Python's `s.split(sep)` for a one-character separator. */
  function Split(s: string, sep: char): (parts: seq<string>)
    ensures |parts| >= 1
    ensures forall k :: 0 <= k < |parts| ==> sep !in parts[k]
    decreases |s|
  {
    if |s| == 0 then [""]
    else if s[0] == sep then [""] + Split(s[1..], sep)
    else
      var rest := Split(s[1..], sep);
      [[s[0]] + rest[0]] + rest[1..]
  }

  /** The lines of a text: `s.split("\n")`. */
  function Lines(s: string): seq<string>
  {
    Split(s, '\n')
  }

  /** Python's `str.lower` on ASCII letters; every other character is kept. */
  function LowerChar(c: char): char
  {
    if 'A' <= c <= 'Z' then (c as int + 32) as char else c
  }

  function Lower(s: string): (r: string)
    ensures |r| == |s|
    ensures forall k :: 0 <= k < |s| ==> r[k] == LowerChar(s[k])
  {
    seq(|s|, k requires 0 <= k < |s| => LowerChar(s[k]))
  }

  /** Joining after splitting gives the text back: the separator is the only thing `Split` consumes. */
  lemma {:induction false} SplitOfJoin(parts: seq<string>, sep: char)
    requires |parts| >= 1
    requires forall k :: 0 <= k < |parts| ==> sep !in parts[k]
    ensures Split(Join(parts, [sep]), sep) == parts
    decreases |parts|, |parts[0]|
  {
    if |parts[0]| == 0 {
      if |parts| == 1 {
      } else {
        var tail := Join(parts[1..], [sep]);
        assert Join(parts, [sep]) == [sep] + tail;
        assert ([sep] + tail)[1..] == tail;
        SplitOfJoin(parts[1..], sep);
      }
    } else {
      var c := parts[0][0];
      var shorter := [parts[0][1..]] + parts[1..];
      assert c != sep by { assert c == parts[0][0]; }
      assert Join(parts, [sep]) == [c] + Join(shorter, [sep]) by {
        if |parts| == 1 {
          assert parts[0] == [c] + parts[0][1..];
        } else {
          assert shorter[1..] == parts[1..];
          assert parts[0] == [c] + parts[0][1..];
        }
      }
      assert ([c] + Join(shorter, [sep]))[1..] == Join(shorter, [sep]);
      assert forall k :: 0 <= k < |shorter| ==> sep !in shorter[k] by {
        forall k | 0 <= k < |shorter| ensures sep !in shorter[k] {
          if k == 0 {
            assert forall x :: x in parts[0][1..] ==> x in parts[0];
          } else {
            assert shorter[k] == parts[k];
          }
        }
      }
      SplitOfJoin(shorter, sep);
      assert [c] + shorter[0] == parts[0];
      assert shorter[1..] == parts[1..];
    }
  }

  /** The positions of `xs`, from `from` on, whose element satisfies `p`, in increasing order. */
  function Positions<T>(xs: seq<T>, p: T -> bool, from: nat): (r: seq<nat>)
    requires from <= |xs|
    ensures forall k :: 0 <= k < |r| ==> from <= r[k] < |xs| && p(xs[r[k]])
    ensures forall k, l :: 0 <= k < l < |r| ==> r[k] < r[l]
    ensures forall i :: from <= i < |xs| && p(xs[i]) ==> i in r
    decreases |xs| - from
  {
    if from == |xs| then []
    else if p(xs[from]) then [from] + Positions(xs, p, from + 1)
    else Positions(xs, p, from + 1)
  }

  /** Python's `[x for x in xs if p(x)]`: the elements at `Positions(xs, p, 0)`. */
  function Filter<T>(xs: seq<T>, p: T -> bool): (r: seq<T>)
    ensures |r| == |Positions(xs, p, 0)|
    ensures forall k :: 0 <= k < |r| ==> r[k] == xs[Positions(xs, p, 0)[k]] && p(r[k])
  {
    var ps := Positions(xs, p, 0);
    seq(|ps|, k requires 0 <= k < |ps| => xs[ps[k]])
  }

  /** A character that is not whitespace survives at the front of `Strip`. */
  lemma StripKeepsFirst(s: string)
    requires |s| > 0 && !IsSpace(s[0])
    ensures |Strip(s)| > 0 && Strip(s)[0] == s[0]
  {
    StripBySlice(s, IsSpace);
  }

  /** Stripping leaves a text alone when neither end is to be removed. */
  lemma StripByUntouched(s: string, drop: char -> bool)
    requires |s| > 0 ==> !drop(s[0]) && !drop(s[|s| - 1])
    ensures StripBy(s, drop) == s
  {
  }

  /** A join starts with the first character of its first part. */
  lemma JoinStartsWithFirst(parts: seq<string>, sep: string)
    requires |parts| >= 1 && |parts[0]| > 0
    ensures |Join(parts, sep)| > 0 && Join(parts, sep)[0] == parts[0][0]
  {
  }

  /** Stripping only removes characters: whatever is in the result was in the input. */
  lemma StripByKeepsMembers(s: string, drop: char -> bool)
    ensures forall x :: x in StripBy(s, drop) ==> x in s
  {
    StripBySlice(s, drop);
    SliceMembers(s, StripOffset(s, drop), StripBy(s, drop));
  }

  lemma SliceMembers(s: string, i: nat, r: string)
    requires i + |r| <= |s| && r == s[i..i + |r|]
    ensures forall x :: x in r ==> x in s
  {
    forall x | x in r ensures x in s {
      var k :| 0 <= k < |r| && r[k] == x;
      assert s[i + k] == x;
    }
  }

  /** Splitting loses nothing: joining the parts with the separator gives the text back. */
  lemma {:induction false} JoinOfSplit(s: string, sep: char)
    ensures Join(Split(s, sep), [sep]) == s
    decreases |s|
  {
    if |s| == 0 {
    } else if s[0] == sep {
      JoinOfSplit(s[1..], sep);
      var rest := Split(s[1..], sep);
      assert Split(s, sep) == [""] + rest;
      JoinCons("", rest, [sep]);
      assert s == [sep] + s[1..];
    } else {
      JoinOfSplit(s[1..], sep);
      var rest := Split(s[1..], sep);
      assert Split(s, sep) == [[s[0]] + rest[0]] + rest[1..];
      JoinCons([s[0]] + rest[0], rest[1..], [sep]);
      assert rest == [rest[0]] + rest[1..];
      JoinCons(rest[0], rest[1..], [sep]);
      assert s == [s[0]] + s[1..];
    }
  }

  /** Joining a first part and the rest: the first part, then the separator and the rest's join
      when there is a rest. */
  lemma JoinCons(p: string, rest: seq<string>, sep: string)
    ensures |rest| == 0 ==> Join([p] + rest, sep) == p
    ensures |rest| > 0 ==> Join([p] + rest, sep) == p + sep + Join(rest, sep)
  {
    assert ([p] + rest)[1..] == rest;
  }

  /** `TrimStart` removes exactly the leading run that satisfies `drop`. */
  lemma {:induction false} TrimStartAt(s: string, drop: char -> bool, i: nat)
    requires i <= |s| && AllSatisfy(s[..i], drop) && (i < |s| ==> !drop(s[i]))
    ensures TrimStart(s, drop) == s[i..]
    decreases i
  {
    if i > 0 {
      assert s[..i][0] == s[0];
      assert s[1..][..i - 1] == s[1..i];
      assert i - 1 < |s[1..]| ==> s[1..][i - 1] == s[i];
      TrimStartAt(s[1..], drop, i - 1);
    }
  }

  /** A character that is not whitespace is never stripped away. */
  lemma NonSpaceSurvivesStrip(s: string, p: nat)
    requires p < |s| && !IsSpace(s[p])
    ensures s[p] in Strip(s)
  {
    var t := TrimStart(s, IsSpace);
    var j := |s| - |t|;
    assert t[p - j] == s[p];
    var r := TrimEnd(t, IsSpace);
    assert r[p - j] == s[p];
  }

  /** The stripped text is how the left-trimmed text begins. */
  lemma StripBeginsTrimStart(s: string)
    ensures |Strip(s)| <= |TrimStart(s, IsSpace)|
    ensures Strip(s) == TrimStart(s, IsSpace)[..|Strip(s)|]
  {
  }

  /** Gluing two runs of text pieces end to end is gluing their concatenation. */
  lemma {:induction false} JoinGlue(a: seq<string>, b: seq<string>)
    ensures Join(a + b, "") == Join(a, "") + Join(b, "")
    decreases |a|
  {
    if |a| == 0 {
      assert a + b == b;
    } else if |b| == 0 {
      assert a + b == a;
    } else {
      JoinGlue(a[1..], b);
      assert (a + b)[1..] == a[1..] + b;
      assert (a + b)[0] == a[0];
      if |a| == 1 {
        assert a[1..] + b == b;
      }
    }
  }

  /** `TrimEnd` removes exactly the trailing run that satisfies `drop`. */
  lemma {:induction false} TrimEndAt(s: string, drop: char -> bool, j: nat)
    requires j <= |s| && AllSatisfy(s[j..], drop) && (j > 0 ==> !drop(s[j - 1]))
    ensures TrimEnd(s, drop) == s[..j]
    decreases |s| - j
  {
    if j < |s| {
      var t := s[..|s| - 1];
      assert s[j..][|s| - 1 - j] == s[|s| - 1];
      assert t[j..] == s[j..|s| - 1];
      assert AllSatisfy(t[j..], drop) by {
        forall k | 0 <= k < |t[j..]| ensures drop(t[j..][k]) {
          assert t[j..][k] == s[j..][k];
        }
      }
      assert j > 0 ==> t[j - 1] == s[j - 1];
      TrimEndAt(t, drop, j);
      assert t[..j] == s[..j];
    }
  }

  /** A piece that neither starts nor ends with a removable character is what stripping leaves of
      it with only removable characters around it. */
  lemma StripOfWrapped(s: string, w: string, i: nat, drop: char -> bool)
    requires |w| > 0 && !drop(w[0]) && !drop(w[|w| - 1])
    requires i + |w| <= |s| && s[i..i + |w|] == w
    requires AllSatisfy(s[..i], drop) && AllSatisfy(s[i + |w|..], drop)
    ensures StripBy(s, drop) == w
  {
    var n := |w|;
    assert s[i] == w[0];
    TrimStartAt(s, drop, i);
    var u := s[i..];
    assert u[..n] == w;
    assert AllSatisfy(u[n..], drop) by {
      assert u[n..] == s[i + n..];
    }
    assert u[n - 1] == w[n - 1];
    TrimEndAt(u, drop, n);
  }
}
