/** The few JavaScript string built-ins the services rely on: `trim`, `split` / `join` on one
    character, `slice` with negative indexes, ASCII lower-casing and `replace(/\s+/g, c)`. */
module JsStrings {

  /** ECMAScript WhiteSpace and LineTerminator code points: what `trim` removes and `\s` matches. */
  const WhitespaceCodes: set<int> := {
    0x09, 0x0A, 0x0B, 0x0C, 0x0D, 0x20, 0xA0, 0x1680,
    0x2000, 0x2001, 0x2002, 0x2003, 0x2004, 0x2005, 0x2006, 0x2007, 0x2008, 0x2009, 0x200A,
    0x2028, 0x2029, 0x202F, 0x205F, 0x3000, 0xFEFF}

  predicate IsWhitespace(c: char) {
    c as int in WhitespaceCodes
  }

  predicate AllWhitespace(s: string) {
    forall i :: 0 <= i < |s| ==> IsWhitespace(s[i])
  }

  predicate NoWhitespace(s: string) {
    forall i :: 0 <= i < |s| ==> !IsWhitespace(s[i])
  }

  /** `s` with its leading whitespace removed: a suffix of `s` not starting with whitespace. */
  function TrimStart(s: string): (r: string)
    ensures |r| <= |s| && r == s[|s| - |r|..]
    ensures AllWhitespace(s[..|s| - |r|])
    ensures r != [] ==> !IsWhitespace(r[0])
  {
    if s == [] then []
    else if IsWhitespace(s[0]) then
      var r := TrimStart(s[1..]);
      assert s[1..][..|s| - 1 - |r|] == s[1..|s| - |r|];
      r
    else s
  }

  /** `s` with its trailing whitespace removed: a prefix of `s` not ending with whitespace. */
  function TrimEnd(s: string): (r: string)
    ensures |r| <= |s| && r == s[..|r|]
    ensures AllWhitespace(s[|r|..])
    ensures r != [] ==> !IsWhitespace(r[|r| - 1])
  {
    if s == [] then []
    else if IsWhitespace(s[|s| - 1]) then
      var r := TrimEnd(s[..|s| - 1]);
      assert s[..|s| - 1][|r|..] == s[|r|..|s| - 1];
      assert forall i :: |r| <= i < |s| ==> IsWhitespace(s[i]) by {
        forall i | |r| <= i < |s| ensures IsWhitespace(s[i]) {
          if i < |s| - 1 {
            assert s[i] == s[|r|..|s| - 1][i - |r|];
          }
        }
      }
      r
    else s
  }

  function Trim(s: string): string {
    TrimEnd(TrimStart(s))
  }

  /** `trim` cuts `s` into whitespace, a core that neither starts nor ends with whitespace, and whitespace. */
  lemma TrimShape(s: string)
    ensures exists i, j ::
              (0 <= i <= j <= |s| && Trim(s) == s[i..j] && AllWhitespace(s[..i]) && AllWhitespace(s[j..]))
    ensures Trim(s) != [] ==> !IsWhitespace(Trim(s)[0]) && !IsWhitespace(Trim(s)[|Trim(s)| - 1])
  {
    var t := TrimStart(s);
    var i := |s| - |t|;
    var r := TrimEnd(t);
    var j := i + |r|;
    assert r == s[i..j];
    assert s[j..] == t[|r|..];
  }

  /** A string trims to the empty string exactly when it is all whitespace. */
  lemma {:induction false} TrimEmptyIff(s: string)
    ensures Trim(s) == "" <==> AllWhitespace(s)
  {
    var t := TrimStart(s);
    if t == [] {
      assert s[..|s|] == s;
    } else {
      assert !IsWhitespace(t[0]);
      assert t[0] in t[..];
      assert s[|s| - |t|] == t[0];
    }
  }

  lemma TrimIdempotent(s: string)
    ensures Trim(Trim(s)) == Trim(s)
  {
    var r := Trim(s);
    if r != [] {
      TrimShape(s);
      assert TrimStart(r) == r;
      assert TrimEnd(r) == r;
    }
  }

  // ---------------------------------------------------------------- split and join

  function Count(s: string, c: char): nat {
    if s == [] then 0 else (if s[0] == c then 1 else 0) + Count(s[1..], c)
  }

  /** `parts.join(sep)`. */
  function Join(parts: seq<string>, sep: char): (s: string)
  {
    if |parts| == 0 then ""
    else if |parts| == 1 then parts[0]
    else parts[0] + [sep] + Join(parts[1..], sep)
  }

  /** `s.split(sep)`: the pieces between occurrences of `sep`, which joining with `sep` restores. */
  function Split(s: string, sep: char): (parts: seq<string>)
    ensures |parts| == Count(s, sep) + 1
    ensures forall k :: 0 <= k < |parts| ==> sep !in parts[k]
    ensures Join(parts, sep) == s
  {
    if s == [] then [""]
    else
      var rest := Split(s[1..], sep);
      if s[0] == sep then
        assert Join([""] + rest, sep) == [sep] + Join(rest, sep) by {
          assert ([""] + rest)[1..] == rest;
        }
        assert s == [s[0]] + s[1..];
        [""] + rest
      else
        var parts := [[s[0]] + rest[0]] + rest[1..];
        assert parts[1..] == rest[1..];
        assert Join(parts, sep) == [s[0]] + Join(rest, sep);
        assert s == [s[0]] + s[1..];
        parts
  }

  /** Splitting a join gives the pieces back when none of them contains the separator. */
  lemma {:induction false} SplitJoin(parts: seq<string>, sep: char)
    requires |parts| >= 1
    requires forall k :: 0 <= k < |parts| ==> sep !in parts[k]
    ensures Split(Join(parts, sep), sep) == parts
  {
    if |parts| == 1 {
      SplitNoSep(parts[0], sep);
    } else {
      SplitJoin(parts[1..], sep);
      SplitPrefix(parts[0], Join(parts[1..], sep), sep);
      assert parts == [parts[0]] + parts[1..];
    }
  }

  lemma {:induction false} SplitNoSep(s: string, sep: char)
    requires sep !in s
    ensures Split(s, sep) == [s]
  {
    if s != [] {
      SplitNoSep(s[1..], sep);
      assert s == [s[0]] + s[1..];
    }
  }

  lemma {:induction false} SplitPrefix(a: string, b: string, sep: char)
    requires sep !in a
    ensures Split(a + [sep] + b, sep) == [a] + Split(b, sep)
  {
    if a == [] {
      assert ([] + [sep] + b)[1..] == b;
    } else {
      var s := a + [sep] + b;
      SplitPrefix(a[1..], b, sep);
      assert s[0] == a[0] && s[0] != sep;
      assert s[1..] == a[1..] + [sep] + b;
      var rest := Split(s[1..], sep);
      assert rest == [a[1..]] + Split(b, sep);
      assert Split(s, sep) == [[a[0]] + rest[0]] + rest[1..];
      assert [a[0]] + a[1..] == a;
    }
  }

  // ---------------------------------------------------------------- slice

  /** How `slice` reads an index: negative counts from the end, and it is clamped to [0, len]. */
  function ClampIndex(i: int, len: nat): (k: nat)
    ensures k <= len
  {
    if i < 0 then (if len + i < 0 then 0 else len + i)
    else if i > len then len
    else i
  }

  /** `s.slice(start, end)`. */
  function Slice(s: string, start: int, end: int): string {
    var from, to := ClampIndex(start, |s|), ClampIndex(end, |s|);
    if from < to then s[from..to] else ""
  }

  /** `s.slice(start)`. */
  function SliceFrom(s: string, start: int): string {
    Slice(s, start, |s|)
  }

  // ---------------------------------------------------------------- case and whitespace runs

  function LowerAscii(c: char): char {
    if 'A' <= c <= 'Z' then (c as int + 32) as char else c
  }

  /** `toLowerCase` on ASCII letters; other characters are kept. */
  function ToLowerAscii(s: string): (r: string)
    ensures |r| == |s|
  {
    if s == [] then [] else [LowerAscii(s[0])] + ToLowerAscii(s[1..])
  }

  /** `s.replace(/\s+/g, [c])`: every maximal run of whitespace becomes one `c`. */
  function ReplaceWhitespaceRuns(s: string, c: char): string
    decreases |s|
  {
    if s == [] then []
    else if IsWhitespace(s[0]) then
      var rest := TrimStart(s[1..]);
      [c] + ReplaceWhitespaceRuns(rest, c)
    else
      [s[0]] + ReplaceWhitespaceRuns(s[1..], c)
  }

  /** The result holds no whitespace, and a string without whitespace is left as it is. */
  lemma {:induction false} ReplaceRunsFacts(s: string, c: char)
    requires !IsWhitespace(c)
    ensures NoWhitespace(ReplaceWhitespaceRuns(s, c))
    ensures NoWhitespace(s) ==> ReplaceWhitespaceRuns(s, c) == s
    decreases |s|
  {
    if s != [] {
      var r := ReplaceWhitespaceRuns(s, c);
      if IsWhitespace(s[0]) {
        var rest := TrimStart(s[1..]);
        ReplaceRunsFacts(rest, c);
        assert r == [c] + ReplaceWhitespaceRuns(rest, c);
        forall i | 0 <= i < |r| ensures !IsWhitespace(r[i]) {
          if i > 0 {
            assert r[i] == ReplaceWhitespaceRuns(rest, c)[i - 1];
          }
        }
      } else {
        ReplaceRunsFacts(s[1..], c);
        assert r == [s[0]] + ReplaceWhitespaceRuns(s[1..], c);
        forall i | 0 <= i < |r| ensures !IsWhitespace(r[i]) {
          if i > 0 {
            assert r[i] == ReplaceWhitespaceRuns(s[1..], c)[i - 1];
          }
        }
        if NoWhitespace(s) {
          assert NoWhitespace(s[1..]) by {
            forall i | 0 <= i < |s[1..]| ensures !IsWhitespace(s[1..][i]) {
              assert s[1..][i] == s[i + 1];
            }
          }
          assert s == [s[0]] + s[1..];
        }
      }
    }
  }

  lemma ReplaceRunsCons(x: char, t: string, c: char)
    requires !IsWhitespace(c) && !IsWhitespace(x)
    ensures ReplaceWhitespaceRuns([x] + t, c) == [x] + ReplaceWhitespaceRuns(t, c)
  {
    assert ([x] + t)[1..] == t;
  }

  /** A leading stretch without whitespace is kept as it is. */
  lemma {:induction false} ReplaceRunsPrefix(a: string, b: string, c: char)
    requires !IsWhitespace(c) && NoWhitespace(a)
    ensures ReplaceWhitespaceRuns(a + b, c) == a + ReplaceWhitespaceRuns(b, c)
    decreases |a|
  {
    if a == [] {
      assert a + b == b;
    } else {
      var x, t := a[0], a[1..];
      assert a == [x] + t && a + b == [x] + (t + b);
      assert !IsWhitespace(x);
      assert NoWhitespace(t);
      ReplaceRunsCons(x, t + b, c);
      ReplaceRunsPrefix(t, b, c);
      assert [x] + (t + ReplaceWhitespaceRuns(b, c)) == a + ReplaceWhitespaceRuns(b, c);
    }
  }

  /** A run of whitespace before a word becomes one `c`. */
  lemma ReplaceRunsGap(gap: string, w: string, c: char)
    requires !IsWhitespace(c) && NoWhitespace(w)
    requires gap != [] && AllWhitespace(gap)
    ensures ReplaceWhitespaceRuns(gap + w, c) == [c] + w
  {
    var s := gap + w;
    assert s[0] == gap[0] && s[1..] == gap[1..] + w;
    TrimStartPastWhitespace(gap[1..], w);
    ReplaceRunsFacts(w, c);
  }

  /** Leading whitespace before a word is removed up to the word. */
  lemma {:induction false} TrimStartPastWhitespace(ws: string, w: string)
    requires AllWhitespace(ws) && NoWhitespace(w)
    ensures TrimStart(ws + w) == w
    decreases |ws|
  {
    if ws == [] {
      assert ws + w == w;
    } else {
      assert (ws + w)[0] == ws[0] && (ws + w)[1..] == ws[1..] + w;
      TrimStartPastWhitespace(ws[1..], w);
    }
  }

  lemma WhitespaceIsNotUpper(c: char)
    requires IsWhitespace(c)
    ensures LowerAscii(c) == c
  {
  }

  lemma {:induction false} ToLowerConcat(a: string, b: string)
    ensures ToLowerAscii(a + b) == ToLowerAscii(a) + ToLowerAscii(b)
    decreases |a|
  {
    if a == [] {
      assert a + b == b;
    } else {
      assert (a + b)[0] == a[0] && (a + b)[1..] == a[1..] + b;
      ToLowerConcat(a[1..], b);
    }
  }

  /** Lower-casing changes no whitespace character and introduces none. */
  lemma {:induction false} ToLowerWhitespace(s: string)
    ensures NoWhitespace(s) ==> NoWhitespace(ToLowerAscii(s))
    ensures AllWhitespace(s) ==> ToLowerAscii(s) == s
    decreases |s|
  {
    if s != [] {
      ToLowerWhitespace(s[1..]);
      var r := ToLowerAscii(s);
      assert r == [LowerAscii(s[0])] + ToLowerAscii(s[1..]);
      if NoWhitespace(s) {
        assert NoWhitespace(s[1..]) by {
          forall i | 0 <= i < |s[1..]| ensures !IsWhitespace(s[1..][i]) {
            assert s[1..][i] == s[i + 1];
          }
        }
        assert !IsWhitespace(LowerAscii(s[0]));
        forall i | 0 <= i < |r| ensures !IsWhitespace(r[i]) {
          if i > 0 {
            assert r[i] == ToLowerAscii(s[1..])[i - 1];
          }
        }
      }
      if AllWhitespace(s) {
        assert AllWhitespace(s[1..]) by {
          forall i | 0 <= i < |s[1..]| ensures IsWhitespace(s[1..][i]) {
            assert s[1..][i] == s[i + 1];
          }
        }
        WhitespaceIsNotUpper(s[0]);
        assert s == [s[0]] + s[1..];
      }
    }
  }

  /** Two words with whitespace between them become the words joined by one `c`. */
  lemma ReplaceRunsTwoWords(a: string, gap: string, b: string, c: char)
    requires !IsWhitespace(c) && NoWhitespace(a) && NoWhitespace(b)
    requires gap != [] && AllWhitespace(gap)
    ensures ReplaceWhitespaceRuns(a + gap + b, c) == a + [c] + b
  {
    assert a + gap + b == a + (gap + b);
    ReplaceRunsPrefix(a, gap + b, c);
    ReplaceRunsGap(gap, b, c);
    assert a + ([c] + b) == a + [c] + b;
  }

  lemma ToLowerConcat3(a: string, b: string, c: string)
    ensures ToLowerAscii(a + b + c) == ToLowerAscii(a) + ToLowerAscii(b) + ToLowerAscii(c)
  {
    ToLowerConcat(a + b, c);
    ToLowerConcat(a, b);
  }

  predicate NoUpperAscii(s: string) {
    forall i :: 0 <= i < |s| ==> !('A' <= s[i] <= 'Z')
  }

  /** A string without capitals is its own lower case. */
  lemma {:induction false} ToLowerKeepsLower(s: string)
    requires NoUpperAscii(s)
    ensures ToLowerAscii(s) == s
    decreases |s|
  {
    if s != [] {
      assert NoUpperAscii(s[1..]) by {
        forall i | 0 <= i < |s[1..]| ensures !('A' <= s[1..][i] <= 'Z') {
          assert s[1..][i] == s[i + 1];
        }
      }
      ToLowerKeepsLower(s[1..]);
      assert s == [s[0]] + s[1..];
    }
  }
}
