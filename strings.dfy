/** Python string and list operations the two scripts rely on, stated over `seq<char>`. */
module Strings {

  datatype Option<+T> = None | Some(value: T)

  /** `s.startswith(p)` */
  predicate IsPrefix(p: string, s: string)
  {
    |p| <= |s| && s[..|p|] == p
  }

  /** `s.endswith(p)` */
  predicate EndsWith(s: string, p: string)
  {
    |p| <= |s| && s[|s| - |p|..] == p
  }

  /** `key in s`: the block `key` occurs somewhere in `s` (always true of the empty key). */
  predicate Contains(s: string, key: string)
    decreases |s|
  {
    IsPrefix(key, s) || (s != [] && Contains(s[1..], key))
  }

  /** `s.replace(key, val)`: every non-overlapping occurrence of `key`, scanned left to right,
      becomes `val`. An empty key puts `val` before every character and at the end. */
  function ReplaceAll(s: string, key: string, val: string): string
    decreases |s|
  {
    if key == [] then InsertEverywhere(s, val)
    else if IsPrefix(key, s) then val + ReplaceAll(s[|key|..], key, val)
    else if s == [] then []
    else [s[0]] + ReplaceAll(s[1..], key, val)
  }

  function InsertEverywhere(s: string, val: string): string
  {
    if s == [] then val else val + [s[0]] + InsertEverywhere(s[1..], val)
  }

  /** `s.split(key)` for a non-empty separator: the pieces between the occurrences that
      `ReplaceAll` rewrites. The first piece is a prefix of `s`. */
  function Split(s: string, key: string): (parts: seq<string>)
    requires key != []
    ensures |parts| >= 1 && IsPrefix(parts[0], s)
    decreases |s|
  {
    if IsPrefix(key, s) then [[]] + Split(s[|key|..], key)
    else if s == [] then [[]]
    else
      var rest := Split(s[1..], key);
      [[s[0]] + rest[0]] + rest[1..]
  }

  /** `sep.join(parts)` */
  function Join(parts: seq<string>, sep: string): string
    requires |parts| >= 1
  {
    if |parts| == 1 then parts[0] else parts[0] + sep + Join(parts[1..], sep)
  }

  /** The text of a list of runs: their concatenation. */
  function Concat(runs: seq<string>): string
  {
    if runs == [] then [] else runs[0] + Concat(runs[1..])
  }

  /** ASCII case folding, the part of `str.lower()` these scripts meet. */
  function LowerChar(c: char): char
  {
    if 'A' <= c <= 'Z' then (c as int + 32) as char else c
  }

  function Lower(s: string): (r: string)
    ensures |r| == |s|
    ensures forall i :: 0 <= i < |s| ==> r[i] == LowerChar(s[i])
  {
    if s == [] then [] else [LowerChar(s[0])] + Lower(s[1..])
  }

  predicate IsSpace(c: char)
  {
    c == ' ' || c == '\t' || c == '\n' || c == '\r' || c == '\U{000B}' || c == '\U{000C}'
      || ('\U{001C}' <= c <= '\U{001F}')
  }

  function StripLeft(s: string): string
  {
    if s != [] && IsSpace(s[0]) then StripLeft(s[1..]) else s
  }

  function StripRight(s: string): string
  {
    if s != [] && IsSpace(s[|s| - 1]) then StripRight(s[..|s| - 1]) else s
  }

  /** `s.strip()`: drops leading and trailing white space. */
  function Strip(s: string): string
  {
    StripRight(StripLeft(s))
  }

  /** `f"{n}"` for a non-negative integer. */
  function DecimalText(n: nat): (r: string)
    ensures r != []
    ensures forall i :: 0 <= i < |r| ==> '0' <= r[i] <= '9'
  {
    if n < 10 then [DigitChar(n)] else DecimalText(n / 10) + [DigitChar(n % 10)]
  }

  function DigitChar(d: nat): char
    requires d < 10
  {
    ('0' as int + d) as char
  }

  /** `int(s)` for a string of decimal digits. */
  function ParseDecimal(s: string): nat
  {
    if s == [] then 0
    else
      var c := s[|s| - 1];
      ParseDecimal(s[..|s| - 1]) * 10 + (if '0' <= c <= '9' then c as int - '0' as int else 0)
  }

  /** `os.path.basename(p)`: what follows the last '/'. */
  function Basename(p: string): string
  {
    if p == [] then []
    else if p[|p| - 1] == '/' then []
    else Basename(p[..|p| - 1]) + [p[|p| - 1]]
  }

  /** `os.path.join(dir, name)` on POSIX. */
  function PathJoin(dir: string, name: string): string
  {
    if IsPrefix("/", name) then name
    else if dir == [] || EndsWith(dir, "/") then dir + name
    else dir + "/" + name
  }

  /** `[x for x in s if p(x)]` */
  function Filter(p: string -> bool, s: seq<string>): (r: seq<string>)
    ensures |r| <= |s|
    ensures forall x :: x in r <==> x in s && p(x)
  {
    if s == [] then [] else (if p(s[0]) then [s[0]] else []) + Filter(p, s[1..])
  }

  // ---------------------------------------------------------------------------
  // Lemmas

  /** Rendering a year and reading it back gives the year: distinct years give distinct text. */
  lemma {:induction false} ParseDecimalText(n: nat)
    ensures ParseDecimal(DecimalText(n)) == n
  {
    if n >= 10 {
      var d := DecimalText(n / 10);
      var s := d + [DigitChar(n % 10)];
      assert s[..|s| - 1] == d;
      ParseDecimalText(n / 10);
    }
  }

  /** Every character of an occurring key is a character of the text. */
  lemma {:induction false} ContainsChar(s: string, key: string, j: nat)
    requires Contains(s, key) && j < |key|
    ensures key[j] in s
  {
    if IsPrefix(key, s) {
      assert s[j] == key[j];
    } else {
      ContainsChar(s[1..], key, j);
    }
  }

  /** A text in which the key does not occur is left as it is. */
  lemma {:induction false} ReplaceAllAbsent(s: string, key: string, val: string)
    requires !Contains(s, key)
    ensures ReplaceAll(s, key, val) == s
  {
    assert key != [];
    if s != [] {
      ReplaceAllAbsent(s[1..], key, val);
    }
  }

  /** A character that is not part of the key survives the replacement. */
  lemma {:induction false} KeepsChar(s: string, key: string, val: string, c: char)
    requires key != [] && c in s && c !in key
    ensures c in ReplaceAll(s, key, val)
    decreases |s|
  {
    if IsPrefix(key, s) {
      var rest := s[|key|..];
      assert s == key + rest;
      assert c in rest;
      KeepsChar(rest, key, val, c);
    } else if s[0] != c {
      assert s == [s[0]] + s[1..];
      KeepsChar(s[1..], key, val, c);
    }
  }

  /** Replacing a key by itself changes nothing. */
  lemma {:induction false} ReplaceAllSelf(s: string, key: string)
    ensures ReplaceAll(s, key, key) == s
  {
    if key == [] {
      InsertNothing(s, key);
    } else if IsPrefix(key, s) {
      ReplaceAllSelf(s[|key|..], key);
      assert s == s[..|key|] + s[|key|..];
    } else if s != [] {
      ReplaceAllSelf(s[1..], key);
      assert s == [s[0]] + s[1..];
    }
  }

  /** Inserting the empty string everywhere changes nothing. */
  lemma {:induction false} InsertNothing(s: string, key: string)
    requires key == []
    ensures InsertEverywhere(s, key) == s
  {
    if s != [] {
      InsertNothing(s[1..], key);
      assert s == [s[0]] + s[1..];
    }
  }

  /** `s.replace(key, val) == val.join(s.split(key))`. */
  lemma {:induction false} ReplaceAllIsJoinSplit(s: string, key: string, val: string)
    requires key != []
    ensures ReplaceAll(s, key, val) == Join(Split(s, key), val)
    decreases |s|
  {
    if IsPrefix(key, s) {
      ReplaceAllIsJoinSplit(s[|key|..], key, val);
      JoinAfterEmpty(Split(s[|key|..], key), val);
    } else if s != [] {
      ReplaceAllIsJoinSplit(s[1..], key, val);
      JoinExtendFirst(s[0], Split(s[1..], key), val);
    }
  }

  lemma JoinAfterEmpty(rest: seq<string>, sep: string)
    requires |rest| >= 1
    ensures Join([[]] + rest, sep) == sep + Join(rest, sep)
  {
    assert ([[]] + rest)[1..] == rest;
  }

  lemma JoinExtendFirst(c: char, rest: seq<string>, sep: string)
    requires |rest| >= 1
    ensures Join([[c] + rest[0]] + rest[1..], sep) == [c] + Join(rest, sep)
  {
    var parts := [[c] + rest[0]] + rest[1..];
    if |rest| > 1 {
      assert parts[1..] == rest[1..];
    }
  }

  /** Joining the pieces back with the key restores the text. */
  lemma JoinSplit(s: string, key: string)
    requires key != []
    ensures Join(Split(s, key), key) == s
  {
    ReplaceAllIsJoinSplit(s, key, key);
    ReplaceAllSelf(s, key);
  }

  /** No piece of the split contains the key: every occurrence was cut out. */
  lemma {:induction false} SplitPiecesKeyFree(s: string, key: string)
    requires key != []
    ensures forall i :: 0 <= i < |Split(s, key)| ==> !Contains(Split(s, key)[i], key)
    decreases |s|
  {
    var parts := Split(s, key);
    if IsPrefix(key, s) {
      SplitPiecesKeyFree(s[|key|..], key);
      var rest := Split(s[|key|..], key);
      assert parts == [[]] + rest;
      forall i | 0 <= i < |parts| ensures !Contains(parts[i], key) {
        if i > 0 { assert parts[i] == rest[i - 1]; }
      }
    } else if s != [] {
      SplitPiecesKeyFree(s[1..], key);
      var rest := Split(s[1..], key);
      var p0 := [s[0]] + rest[0];
      assert p0[1..] == rest[0];
      if |key| <= |p0| {
        assert p0[..|key|] == s[..|key|];
      }
      assert !Contains(p0, key);
      forall i | 0 <= i < |parts| ensures !Contains(parts[i], key) {
        if i > 0 { assert parts[i] == rest[i]; }
      }
    }
  }

  /** A key of two distinct characters cannot straddle the end of a text it does not occur in,
      so removing it from `s + key` gives back `s`. */
  lemma {:induction false} RemoveAppendedKey(s: string, key: string)
    requires |key| == 2 && key[0] != key[1]
    requires !Contains(s, key)
    ensures ReplaceAll(s + key, key, "") == s
  {
    var t := s + key;
    if s == [] {
      assert t == key;
      assert t[|key|..] == [];
    } else {
      if |s| >= 2 {
        assert s[..2] == t[..2];
      } else {
        assert t[1] == key[0];
      }
      assert !IsPrefix(key, t);
      assert t[1..] == s[1..] + key;
      RemoveAppendedKey(s[1..], key);
    }
  }

  /** Filtering a concatenation filters each part: the filter keeps the input order. */
  lemma {:induction false} FilterConcat(p: string -> bool, a: seq<string>, b: seq<string>)
    ensures Filter(p, a + b) == Filter(p, a) + Filter(p, b)
  {
    if a == [] {
      assert a + b == b;
    } else {
      assert (a + b)[1..] == a[1..] + b;
      FilterConcat(p, a[1..], b);
    }
  }

  /** A filter that no element passes yields the empty list. */
  lemma {:induction false} FilterNone(p: string -> bool, s: seq<string>)
    requires forall x :: x in s ==> !p(x)
    ensures Filter(p, s) == []
  {
    if s != [] {
      assert s[0] in s;
      FilterNone(p, s[1..]);
    }
  }

  /** Stripping white space does not change whether a word without white space occurs. */
  lemma {:induction false} StripLeftKeepsWord(s: string, w: string)
    requires w != [] && !IsSpace(w[0])
    ensures Contains(StripLeft(s), w) <==> Contains(s, w)
  {
    if s != [] && IsSpace(s[0]) {
      StripLeftKeepsWord(s[1..], w);
    }
  }

  lemma {:induction false} ContainsDropLast(s: string, w: string)
    requires s != [] && w != [] && w[|w| - 1] != s[|s| - 1]
    ensures Contains(s[..|s| - 1], w) <==> Contains(s, w)
  {
    var t := s[..|s| - 1];
    if Contains(t, w) {
      ContainsGrows(t, s, w);
    }
    if Contains(s, w) {
      if IsPrefix(w, s) {
        assert t[..|w|] == s[..|w|];
      } else {
        assert s[1..] != [];
        ContainsDropLast(s[1..], w);
        assert s[1..][..|s[1..]| - 1] == t[1..];
      }
    }
  }

  lemma {:induction false} ContainsGrows(t: string, s: string, w: string)
    requires IsPrefix(t, s) && Contains(t, w)
    ensures Contains(s, w)
  {
    if IsPrefix(w, t) {
      assert s[..|w|] == t[..|w|];
    } else {
      assert IsPrefix(t[1..], s[1..]);
      ContainsGrows(t[1..], s[1..], w);
    }
  }

  /** A key occurring in a text occurs in any text that ends with it. */
  lemma {:induction false} ContainsAfter(a: string, s: string, w: string)
    requires Contains(s, w)
    ensures Contains(a + s, w)
    decreases |a|
  {
    if a != [] {
      assert (a + s)[1..] == a[1..] + s;
      ContainsAfter(a[1..], s, w);
    } else {
      assert a + s == s;
    }
  }

  lemma {:induction false} StripRightKeepsWord(s: string, w: string)
    requires w != [] && !IsSpace(w[|w| - 1])
    ensures Contains(StripRight(s), w) <==> Contains(s, w)
    decreases |s|
  {
    if s != [] && IsSpace(s[|s| - 1]) {
      StripRightKeepsWord(s[..|s| - 1], w);
      ContainsDropLast(s, w);
    }
  }

  /** `w in s.strip()` iff `w in s`, for a word that neither starts nor ends with white space. */
  lemma StripKeepsWord(s: string, w: string)
    requires w != [] && !IsSpace(w[0]) && !IsSpace(w[|w| - 1])
    ensures Contains(Strip(s), w) <==> Contains(s, w)
  {
    StripLeftKeepsWord(s, w);
    StripRightKeepsWord(StripLeft(s), w);
  }

  /** Lower-casing neither makes nor unmakes white space, so it commutes with `strip()`. */
  lemma {:induction false} LowerStripLeft(s: string)
    ensures Lower(StripLeft(s)) == StripLeft(Lower(s))
    decreases |s|
  {
    if s != [] {
      var l := Lower(s);
      LowerCharSpace(s[0]);
      if IsSpace(s[0]) {
        assert l[1..] == Lower(s[1..]);
        LowerStripLeft(s[1..]);
      }
    }
  }

  lemma LowerCharSpace(c: char)
    ensures IsSpace(LowerChar(c)) <==> IsSpace(c)
  {
  }

  lemma {:induction false} LowerStripRight(s: string)
    ensures Lower(StripRight(s)) == StripRight(Lower(s))
    decreases |s|
  {
    if s != [] {
      var l := Lower(s);
      LowerCharSpace(s[|s| - 1]);
      if IsSpace(s[|s| - 1]) {
        assert l[..|l| - 1] == Lower(s[..|s| - 1]);
        assert StripRight(l) == StripRight(l[..|l| - 1]);
        assert StripRight(s) == StripRight(s[..|s| - 1]);
        LowerStripRight(s[..|s| - 1]);
      } else {
        assert StripRight(l) == l && StripRight(s) == s;
      }
    }
  }

  lemma LowerStrip(s: string)
    ensures Lower(Strip(s)) == Strip(Lower(s))
  {
    LowerStripRight(StripLeft(s));
    LowerStripLeft(s);
  }

  /** A text shorter than the key cannot contain it. */
  lemma {:induction false} ShortNoContains(s: string, key: string)
    requires |s| < |key|
    ensures !Contains(s, key)
  {
    if s != [] {
      ShortNoContains(s[1..], key);
    }
  }

  /** If character `c` occurs in the key only at index `j` and not at all in `a`, the one
      occurrence of the key in `a + key` is the appended one, and it is the one replaced. */
  /** A key whose `j`-th character occurs in it only once is not a prefix of a text that
      holds it after a non-empty stretch without that character, so the scan steps over the
      first character. */
  lemma StepBeforeAnchor(a: string, key: string, val: string, rest: string, j: nat)
    requires a != [] && j < |key|
    requires forall m :: 0 <= m < |key| && m != j ==> key[m] != key[j]
    requires key[j] !in a
    ensures ReplaceAll(a + key + rest, key, val) == [a[0]] + ReplaceAll(a[1..] + key + rest, key, val)
  {
    var t := a + key + rest;
    if j < |a| {
      assert t[j] == a[j] && a[j] in a;
    } else {
      assert t[j] == key[j - |a|];
    }
    assert !IsPrefix(key, t);
    assert t[1..] == a[1..] + key + rest;
  }

  /** A key at the start of the text is replaced and the scan resumes after it. */
  lemma ReplaceLeadingKey(key: string, val: string, rest: string)
    requires key != []
    ensures ReplaceAll(key + rest, key, val) == val + ReplaceAll(rest, key, val)
  {
    var t := key + rest;
    assert t[..|key|] == key && t[|key|..] == rest;
  }

  /** The anchored key right after `a` is the first occurrence replaced; the scan then
      continues after it. */
  lemma {:induction false} ReplaceAnchoredKeyThen(a: string, key: string, val: string, b: string, j: nat)
    requires j < |key|
    requires forall m :: 0 <= m < |key| && m != j ==> key[m] != key[j]
    requires key[j] !in a
    ensures ReplaceAll(a + key + b, key, val) == a + val + ReplaceAll(b, key, val)
    decreases |a|
  {
    if a == [] {
      assert a + key == key && a + val == val;
      ReplaceLeadingKey(key, val, b);
    } else {
      var a', rb := a[1..], ReplaceAll(b, key, val);
      StepBeforeAnchor(a, key, val, b, j);
      assert key[j] !in a' by {
        assert forall c :: c in a' ==> c in a;
      }
      ReplaceAnchoredKeyThen(a', key, val, b, j);
      ConsRegroup(a, val, rb);
    }
  }

  lemma ConsRegroup(a: string, val: string, rest: string)
    requires a != []
    ensures [a[0]] + (a[1..] + val + rest) == a + val + rest
  {
    assert a == [a[0]] + a[1..];
  }

  lemma ReplaceAnchoredKey(a: string, key: string, val: string, j: nat)
    requires j < |key|
    requires forall m :: 0 <= m < |key| && m != j ==> key[m] != key[j]
    requires key[j] !in a
    ensures ReplaceAll(a + key, key, val) == a + val
  {
    ReplaceAnchoredKeyThen(a, key, val, [], j);
    assert a + key + [] == a + key;
    assert ReplaceAll([], key, val) == [];
  }

  /** An occurrence of the key puts its `j`-th character at index `j` or later, and strictly
      later unless the key is a prefix. */
  lemma {:induction false} ContainsCharFrom(t: string, key: string, j: nat)
    requires Contains(t, key) && j < |key|
    ensures exists i :: j <= i < |t| && t[i] == key[j] && (IsPrefix(key, t) || i > j)
    decreases |t|
  {
    if IsPrefix(key, t) {
      assert t[j] == key[j];
    } else {
      ContainsCharFrom(t[1..], key, j);
      var i :| j <= i < |t[1..]| && t[1..][i] == key[j];
      assert t[i + 1] == key[j];
    }
  }

  /** If the key's `j`-th character occurs in the text only at index `j`, the key can only
      occur as a prefix. */
  lemma ContainsOnlyAsPrefix(s: string, key: string, j: nat)
    requires j < |key|
    requires forall i :: 0 <= i < |s| && i != j ==> s[i] != key[j]
    ensures Contains(s, key) ==> IsPrefix(key, s)
  {
    if Contains(s, key) {
      ContainsCharFrom(s, key, j);
    }
  }

  lemma {:induction false} BasenameAfterSlash(x: string, name: string)
    requires x == [] || x[|x| - 1] == '/'
    requires '/' !in name
    ensures Basename(x + name) == name
  {
    if name != [] {
      var p := x + name;
      assert p[..|p| - 1] == x + name[..|name| - 1];
      assert p[|p| - 1] == name[|name| - 1];
      BasenameAfterSlash(x, name[..|name| - 1]);
      assert name == name[..|name| - 1] + [name[|name| - 1]];
    } else {
      assert x + name == x;
    }
  }

  /** A directory entry joined to any directory keeps its name as the basename. */
  lemma BasenameOfJoin(dir: string, name: string)
    requires '/' !in name
    ensures Basename(PathJoin(dir, name)) == name
  {
    assert !IsPrefix("/", name) by {
      if name != [] {
        assert name[0] in name;
      }
    }
    if dir == [] || EndsWith(dir, "/") {
      assert dir == [] || dir[|dir| - 1] == '/';
      BasenameAfterSlash(dir, name);
    } else {
      BasenameAfterSlash(dir + "/", name);
      assert dir + "/" + name == (dir + "/") + name;
    }
  }
}
