/**
 * The JavaScript string operations the application relies on, with the
 * semantics of `String.prototype.split` (single-character separator),
 * `Array.prototype.join`, `String.prototype.startsWith` and
 * `String.prototype.substring`. A `char` stands for one UTF-16 code unit.
 */
module Text {

  /** `s.startsWith(prefix)` */
  predicate StartsWith(s: string, prefix: string) {
    |prefix| <= |s| && s[..|prefix|] == prefix
  }

  /** `s.split(sep)` for a one-character separator: never empty, and `"".split(sep)` is `[""]`. */
  function Split(s: string, sep: char): (fields: seq<string>)
    ensures |fields| >= 1
    ensures forall k :: 0 <= k < |fields| ==> sep !in fields[k]
    decreases |s|
  {
    if s == [] then [""]
    else
      var rest := Split(s[1..], sep);
      if s[0] == sep then [""] + rest
      else [[s[0]] + rest[0]] + rest[1..]
  }

  /** `parts.join(sep)` */
  function Join(parts: seq<string>, sep: string): string
    decreases |parts|
  {
    if |parts| == 0 then ""
    else if |parts| == 1 then parts[0]
    else parts[0] + sep + Join(parts[1..], sep)
  }

  /** Joining the fields of a split with the separator gives back the original text. */
  lemma {:induction false} JoinSplit(s: string, sep: char)
    ensures Join(Split(s, sep), [sep]) == s
    decreases |s|
  {
    if s != [] {
      var rest := Split(s[1..], sep);
      JoinSplit(s[1..], sep);
      if s[0] == sep {
        assert Split(s, sep) == [""] + rest;
        assert Join([""] + rest, [sep]) == "" + [sep] + Join(rest, [sep]);
        assert s == [s[0]] + s[1..];
      } else {
        JoinConsFirst(s[0], rest, sep);
        assert s == [s[0]] + s[1..];
      }
    }
  }

  /** Prepending a character to the first part prepends it to the joined text. */
  lemma {:induction false} JoinConsFirst(c: char, parts: seq<string>, sep: char)
    requires |parts| >= 1
    ensures Join([[c] + parts[0]] + parts[1..], [sep]) == [c] + Join(parts, [sep])
  {
    var ps := [[c] + parts[0]] + parts[1..];
    assert |ps| == |parts|;
    assert ps[0] == [c] + parts[0];
    assert ps[1..] == parts[1..];
    if |parts| > 1 {
      var tail := Join(parts[1..], [sep]);
      assert Join(ps, [sep]) == ps[0] + [sep] + tail;
      assert Join(parts, [sep]) == parts[0] + [sep] + tail;
      assert ([c] + parts[0]) + [sep] + tail == [c] + (parts[0] + [sep] + tail);
    }
  }

  /** Text without the separator splits into one field: itself. */
  lemma {:induction false} SplitWithoutSeparator(s: string, sep: char)
    requires sep !in s
    ensures Split(s, sep) == [s]
    decreases |s|
  {
    if s != [] {
      SplitWithoutSeparator(s[1..], sep);
      assert s == [s[0]] + s[1..];
    }
  }

  /** Text up to the first separator is the first field; the rest is split on its own. */
  lemma {:induction false} SplitAtFirstSeparator(a: string, sep: char, b: string)
    requires sep !in a
    ensures Split(a + [sep] + b, sep) == [a] + Split(b, sep)
    decreases |a|
  {
    if a == [] {
      assert a + [sep] + b == [sep] + b;
      assert (a + [sep] + b)[1..] == b;
    } else {
      var s := a + [sep] + b;
      assert s[0] == a[0];
      assert s[1..] == a[1..] + [sep] + b;
      SplitAtFirstSeparator(a[1..], sep, b);
      assert a == [a[0]] + a[1..];
    }
  }

  /** Splitting a join of separator-free parts gives back the parts. */
  lemma {:induction false} SplitJoin(parts: seq<string>, sep: char)
    requires |parts| >= 1
    requires forall k :: 0 <= k < |parts| ==> sep !in parts[k]
    ensures Split(Join(parts, [sep]), sep) == parts
    decreases |parts|
  {
    if |parts| == 1 {
      SplitWithoutSeparator(parts[0], sep);
    } else {
      SplitJoin(parts[1..], sep);
      SplitAtFirstSeparator(parts[0], sep, Join(parts[1..], [sep]));
      assert parts == [parts[0]] + parts[1..];
    }
  }

  /**
   * `f` is the field of `s` that starts at `start`: the text from there up
   * to the next `sep` or the end of `s`.
   */
  predicate FieldAt(s: string, start: int, f: string, sep: char) {
    0 <= start && start + |f| <= |s| && s[start..start + |f|] == f && sep !in f
    && (start + |f| == |s| || s[start + |f|] == sep)
  }

  /**
   * The first field of a split is the text before the first separator; it
   * is the only field exactly when it is the whole text, and the other
   * fields are the split of what follows that separator.
   */
  lemma {:induction false} SplitFirstField(s: string, sep: char)
    ensures var fs := Split(s, sep);
      && FieldAt(s, 0, fs[0], sep)
      && (|fs| == 1 <==> |fs[0]| == |s|)
      && (|fs| > 1 ==> fs[1..] == Split(s[|fs[0]| + 1..], sep))
    decreases |s|
  {
    if s != [] {
      var rest := Split(s[1..], sep);
      SplitFirstField(s[1..], sep);
      if s[0] != sep {
        var f := [s[0]] + rest[0];
        var t := s[1..];
        assert t[0..|rest[0]|] == rest[0];
        assert s[1..|f|] == t[0..|rest[0]|];
        assert s[..|f|] == [s[0]] + s[1..|f|];
        if |rest| > 1 {
          assert s[1..][|rest[0]| + 1..] == s[|f| + 1..];
        }
      }
    }
  }

  /** A field of a suffix is a field of the whole text, further on. */
  lemma FieldAtShift(s: string, offset: nat, f: string, sep: char)
    requires offset <= |s| && FieldAt(s[offset..], 0, f, sep)
    ensures FieldAt(s, offset, f, sep)
  {
    assert s[offset..][0..|f|] == s[offset..offset + |f|];
  }

  /**
   * `s.substring(start, end)`: both bounds are clamped to `[0, |s|]` and
   * swapped when `start > end`.
   */
  function Substring(s: string, start: int, end: int): string {
    var a := if start < 0 then 0 else if start > |s| then |s| else start;
    var b := if end < 0 then 0 else if end > |s| then |s| else end;
    if a <= b then s[a..b] else s[b..a]
  }

  /** `s.substring(0, n)` is the prefix of `s` of length `min(n, |s|)`. */
  lemma SubstringFromZero(s: string, n: nat)
    ensures var p := Substring(s, 0, n);
      |p| == (if n < |s| then n else |s|) && p == s[..|p|]
  {
  }
}
