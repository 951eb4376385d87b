/** Character classes and string helpers shared by the whole model.
    Strings are `seq<char>`; case mapping covers ASCII letters only. */
module Text {

  datatype Option<+T> = None | Some(value: T)

  /** JavaScript's `\d`: an ASCII digit. */
  predicate IsDigit(c: char) { '0' <= c <= '9' }

  /** JavaScript's `\s`: white space and line terminators. */
  predicate IsSpace(c: char)
  {
    c == ' ' || c == '\t' || c == '\n' || c == '\U{000B}' || c == '\U{000C}' || c == '\r'
    || c == '\U{00A0}' || c == '\U{1680}' || ('\U{2000}' <= c <= '\U{200A}')
    || c == '\U{2028}' || c == '\U{2029}' || c == '\U{202F}' || c == '\U{205F}'
    || c == '\U{3000}' || c == '\U{FEFF}'
  }

  /** JavaScript's `\w` (without the `u` flag): `[A-Za-z0-9_]`. */
  predicate IsWordChar(c: char)
  {
    ('a' <= c <= 'z') || ('A' <= c <= 'Z') || IsDigit(c) || c == '_'
  }

  /** `toLowerCase` on one character, restricted to ASCII letters. */
  function Lower(c: char): (r: char)
    ensures 'A' <= c <= 'Z' ==> 'a' <= r <= 'z'
    ensures !('A' <= c <= 'Z') ==> r == c
  {
    if 'A' <= c <= 'Z' then (c as int + 32) as char else c
  }

  function LowerStr(s: string): (r: string)
    ensures |r| == |s|
    ensures forall i :: 0 <= i < |s| ==> r[i] == Lower(s[i])
  {
    if s == [] then [] else [Lower(s[0])] + LowerStr(s[1..])
  }

  /** `s.replace(/\D/g, "")`: the digits of `s`, in order. */
  function OnlyDigits(s: string): (r: string)
    ensures forall i :: 0 <= i < |r| ==> IsDigit(r[i])
    ensures |r| <= |s|
  {
    if s == [] then [] else (if IsDigit(s[0]) then [s[0]] else []) + OnlyDigits(s[1..])
  }

  lemma {:induction false} OnlyDigitsAppend(a: string, b: string)
    ensures OnlyDigits(a + b) == OnlyDigits(a) + OnlyDigits(b)
  {
    if a == [] {
      assert a + b == b;
    } else {
      assert (a + b)[1..] == a[1..] + b;
      OnlyDigitsAppend(a[1..], b);
    }
  }

  lemma {:induction false} OnlyDigitsOfDigits(s: string)
    requires forall i :: 0 <= i < |s| ==> IsDigit(s[i])
    ensures OnlyDigits(s) == s
  {
    if s != [] {
      OnlyDigitsOfDigits(s[1..]);
    }
  }

  lemma OnlyDigitsIdempotent(s: string)
    ensures OnlyDigits(OnlyDigits(s)) == OnlyDigits(s)
  {
    OnlyDigitsOfDigits(OnlyDigits(s));
  }

  /** `t` occurs in `s` starting at position `i`. */
  predicate OccursAt(s: string, t: string, i: int)
  {
    0 <= i && i + |t| <= |s| && s[i..i + |t|] == t
  }

  /** `s.includes(t)`. */
  predicate Contains(s: string, t: string)
  {
    exists i :: 0 <= i <= |s| - |t| && OccursAt(s, t, i)
  }

  /** `s.startsWith(p)`. */
  predicate StartsWith(s: string, p: string)
  {
    |p| <= |s| && s[..|p|] == p
  }

  /** JavaScript truthiness of a possibly-null string: present and non-empty. */
  predicate Truthy(o: Option<string>)
  {
    o.Some? && o.value != ""
  }

  /** `storage.getItem(k)` on a string-to-string store such as `sessionStorage`. */
  function Get(store: map<string, string>, k: string): (r: Option<string>)
    ensures r.Some? <==> k in store
    ensures r.Some? ==> r.value == store[k]
  {
    if k in store then Some(store[k]) else None
  }

  /** Drops the leading characters that satisfy `inRun`. */
  function DropWhile(s: string, inRun: char -> bool): (r: string)
    ensures |r| <= |s| && (r != [] ==> !inRun(r[0]))
    ensures forall k :: 0 <= k < |r| ==> r[k] == s[k + |s| - |r|]
    ensures forall k :: 0 <= k < |s| - |r| ==> inRun(s[k])
  {
    if s != [] && inRun(s[0]) then DropWhile(s[1..], inRun) else s
  }

  /** `s.replace(/X+/g, sep)` for a character class X: every maximal run of characters
      satisfying `inRun` becomes one `sep`. */
  function ReplaceRuns(s: string, inRun: char -> bool, sep: char): (r: string)
    ensures forall k :: 0 <= k < |r| ==> r[k] == sep || exists j :: 0 <= j < |s| && r[k] == s[j] && !inRun(s[j])
    ensures r == [] <==> s == []
    ensures s != [] ==> r[0] == if inRun(s[0]) then sep else s[0]
    decreases |s|
  {
    if s == [] then []
    else if inRun(s[0]) then
      var rest := DropWhile(s[1..], inRun);
      var r := [sep] + ReplaceRuns(rest, inRun, sep);
      assert forall k :: 1 <= k < |r| ==> r[k] == sep || exists j :: 0 <= j < |s| && r[k] == s[j] && !inRun(s[j]) by {
        forall k | 1 <= k < |r| && r[k] != sep
          ensures exists j :: 0 <= j < |s| && r[k] == s[j] && !inRun(s[j])
        {
          var j :| 0 <= j < |rest| && r[k] == rest[j] && !inRun(rest[j]);
          assert rest[j] == s[j + |s| - |rest|];
        }
      }
      r
    else
      var r := [s[0]] + ReplaceRuns(s[1..], inRun, sep);
      assert forall k :: 1 <= k < |r| ==> r[k] == sep || exists j :: 0 <= j < |s| && r[k] == s[j] && !inRun(s[j]) by {
        forall k | 1 <= k < |r| && r[k] != sep
          ensures exists j :: 0 <= j < |s| && r[k] == s[j] && !inRun(s[j])
        {
          var j :| 0 <= j < |s| - 1 && r[k] == s[1..][j] && !inRun(s[1..][j]);
          assert s[1..][j] == s[j + 1];
        }
      }
      r
  }

  /** No two `c` side by side. */
  predicate NoDoubled(s: string, c: char)
  {
    forall k :: 0 <= k < |s| - 1 ==> !(s[k] == c && s[k + 1] == c)
  }

  /** When `sep` only occurs inside runs, the result never holds two `sep` side by side. */
  lemma {:induction false} ReplaceRunsNoDoubleSep(s: string, inRun: char -> bool, sep: char)
    requires forall k :: 0 <= k < |s| ==> s[k] == sep ==> inRun(s[k])
    ensures NoDoubled(ReplaceRuns(s, inRun, sep), sep)
    decreases |s|
  {
    if s != [] {
      if inRun(s[0]) {
        var rest := DropWhile(s[1..], inRun);
        assert forall k :: 0 <= k < |rest| ==> rest[k] == s[1..][k + |s[1..]| - |rest|];
        ReplaceRunsNoDoubleSep(rest, inRun, sep);
        var tail := ReplaceRuns(rest, inRun, sep);
        if rest != [] {
          assert rest[0] == s[|s| - |rest|];
          assert !inRun(rest[0]);
          assert tail[0] == rest[0];
        }
        var r := ReplaceRuns(s, inRun, sep);
        assert r == [sep] + tail;
        forall k | 0 <= k < |r| - 1
          ensures !(r[k] == sep && r[k + 1] == sep)
        {
          if k > 0 {
            assert r[k] == tail[k - 1] && r[k + 1] == tail[k];
          } else {
            assert r[1] == tail[0];
            assert tail[0] != sep;
          }
        }
      } else {
        ReplaceRunsNoDoubleSep(s[1..], inRun, sep);
        assert ReplaceRuns(s, inRun, sep) == [s[0]] + ReplaceRuns(s[1..], inRun, sep);
      }
    }
  }

  /** A run of length one at the front becomes one separator. */
  lemma ReplaceRunsShortRun(s: string, inRun: char -> bool, sep: char)
    requires s != [] && inRun(s[0]) && (|s| == 1 || !inRun(s[1]))
    ensures ReplaceRuns(s, inRun, sep) == [sep] + ReplaceRuns(s[1..], inRun, sep)
  {
    assert DropWhile(s[1..], inRun) == s[1..];
  }

  lemma {:induction false} ReplaceRunsIdentity(s: string, inRun: char -> bool, sep: char)
    requires forall k :: 0 <= k < |s| ==> inRun(s[k]) ==> s[k] == sep
    requires forall k :: 0 <= k < |s| - 1 ==> !(inRun(s[k]) && inRun(s[k + 1]))
    ensures ReplaceRuns(s, inRun, sep) == s
    decreases |s|
  {
    if s != [] {
      if inRun(s[0]) {
        assert DropWhile(s[1..], inRun) == s[1..];
      }
      ReplaceRunsIdentity(s[1..], inRun, sep);
    }
  }

  /** `s.trim()`: white space removed at both ends. */
  function Trim(s: string): (r: string)
    ensures |r| <= |s|
  {
    var front := DropWhile(s, IsSpace);
    TrimEnd(front)
  }

  function TrimEnd(s: string): (r: string)
    ensures |r| <= |s| && r == s[..|r|]
  {
    if s != [] && IsSpace(s[|s| - 1]) then TrimEnd(s[..|s| - 1]) else s
  }

  /** A string without white space is its own trim. */
  lemma TrimWithoutSpace(s: string)
    requires forall k :: 0 <= k < |s| ==> !IsSpace(s[k])
    ensures Trim(s) == s
  {
  }

  /** A string of `n` copies of `c`. */
  function Repeat(c: char, n: nat): (r: string)
    ensures |r| == n && forall k :: 0 <= k < n ==> r[k] == c
  {
    if n == 0 then [] else [c] + Repeat(c, n - 1)
  }

  function MaxLength(ids: seq<string>): (m: nat)
    ensures forall i :: 0 <= i < |ids| ==> |ids[i]| <= m
  {
    if ids == [] then 0
    else
      var rest := MaxLength(ids[1..]);
      if |ids[0]| > rest then |ids[0]| else rest
  }

  /** A key that no element of `used` has: it is longer than all of them.
      Stands for the database's generated primary keys. */
  function FreshId(used: seq<string>): (r: string)
    ensures r !in used
  {
    var r := Repeat('#', MaxLength(used) + 1);
    assert forall i :: 0 <= i < |used| ==> |used[i]| < |r|;
    r
  }

  /** `Number.parseInt` of one digit. */
  function DigitValue(c: char): int
  {
    c as int - '0' as int
  }

  /** Two-digit zero padding, `n.toString().padStart(2, "0")`, for 0 <= n < 100. */
  function Pad2(n: nat): (r: string)
    requires n < 100
    ensures |r| == 2 && IsDigit(r[0]) && IsDigit(r[1])
    ensures DigitValue(r[0]) * 10 + DigitValue(r[1]) == n
  {
    [('0' as int + n / 10) as char, ('0' as int + n % 10) as char]
  }

  /** Four-digit zero padding of a year, as date-fns' `yyyy` prints years 0..9999. */
  function Pad4(n: nat): (r: string)
    requires n < 10000
    ensures |r| == 4 && forall i :: 0 <= i < 4 ==> IsDigit(r[i])
    ensures ((DigitValue(r[0]) * 10 + DigitValue(r[1])) * 10 + DigitValue(r[2])) * 10 + DigitValue(r[3]) == n
  {
    Pad2(n / 100) + Pad2(n % 100)
  }
}
