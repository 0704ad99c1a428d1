/** The Python string and path helpers the pages rely on, written out over
    `seq<char>`: `str.isspace`, `str.strip`, `sep.join`, `str.lower`,
    `str.replace`, substring tests, `os.path.basename`, `os.path.dirname`,
    `os.path.splitext` and `pathlib.PurePath.suffix`. */
module Text {

  /** Python's `str.isspace` for one character (the characters CPython's
      `Py_UNICODE_ISSPACE` accepts; `\s` in a `str` regex is the same set). */
  predicate IsSpace(c: char) {
    ('\t' <= c <= '\r') || ('\U{1c}' <= c <= '\U{1f}') || c == ' '
    || c == '\U{85}' || c == '\U{a0}' || c == '\U{1680}'
    || ('\U{2000}' <= c <= '\U{200a}') || c == '\U{2028}' || c == '\U{2029}'
    || c == '\U{202f}' || c == '\U{205f}' || c == '\U{3000}'
  }

  /** Every character is whitespace (the empty string included). */
  predicate Blank(s: string) {
    forall i :: 0 <= i < |s| ==> IsSpace(s[i])
  }

  function StripLeft(s: string): string {
    if s != [] && IsSpace(s[0]) then StripLeft(s[1..]) else s
  }

  function StripRight(s: string): string {
    if s != [] && IsSpace(s[|s| - 1]) then StripRight(s[..|s| - 1]) else s
  }

  /** `s.strip()`. */
  function Strip(s: string): string {
    StripRight(StripLeft(s))
  }

  /** A non-empty string is blank exactly when its first character is
      whitespace and the rest is blank. */
  lemma BlankCons(s: string)
    requires s != []
    ensures Blank(s) <==> IsSpace(s[0]) && Blank(s[1..])
  {
    if IsSpace(s[0]) && Blank(s[1..]) {
      forall i | 0 <= i < |s| ensures IsSpace(s[i]) {
        if i > 0 { assert s[i] == s[1..][i - 1]; }
      }
    }
    if Blank(s) {
      forall i | 0 <= i < |s| - 1 ensures IsSpace(s[1..][i]) {
        assert s[1..][i] == s[i + 1];
      }
    }
  }

  lemma {:induction false} StripLeftBlank(s: string)
    ensures StripLeft(s) == "" <==> Blank(s)
    ensures StripLeft(s) != "" ==> !IsSpace(StripLeft(s)[0])
  {
    if s != [] {
      BlankCons(s);
      if IsSpace(s[0]) {
        StripLeftBlank(s[1..]);
      }
    }
  }

  lemma {:induction false} StripRightBlank(s: string)
    ensures StripRight(s) == "" <==> Blank(s)
    ensures StripRight(s) != "" ==> !IsSpace(StripRight(s)[|StripRight(s)| - 1])
  {
    if s != [] && IsSpace(s[|s| - 1]) {
      var t := s[..|s| - 1];
      StripRightBlank(t);
      if Blank(s) {
        forall i | 0 <= i < |t| ensures IsSpace(t[i]) { assert t[i] == s[i]; }
      }
      if Blank(t) {
        forall i | 0 <= i < |s| ensures IsSpace(s[i]) { if i < |t| { assert s[i] == t[i]; } }
      }
    }
  }

  /** `s.strip()` is empty exactly when `s` is blank; otherwise it starts and
      ends with a non-space character. */
  lemma StripEmptyIffBlank(s: string)
    ensures Strip(s) == "" <==> Blank(s)
    ensures Strip(s) != "" ==> !IsSpace(Strip(s)[0]) && !IsSpace(Strip(s)[|Strip(s)| - 1])
  {
    StripLeftBlank(s);
    var l := StripLeft(s);
    StripRightBlank(l);
    if Strip(s) != "" {
      StripRightPrefix(l);
      assert Strip(s)[0] == l[0];
    }
  }

  lemma {:induction false} StripRightPrefix(s: string)
    ensures |StripRight(s)| <= |s| && StripRight(s) == s[..|StripRight(s)|]
  {
    if s != [] && IsSpace(s[|s| - 1]) {
      StripRightPrefix(s[..|s| - 1]);
    }
  }

  /** `sep.join(parts)`. */
  function Join(parts: seq<string>, sep: string): string {
    if |parts| == 0 then ""
    else if |parts| == 1 then parts[0]
    else parts[0] + sep + Join(parts[1..], sep)
  }

  lemma {:induction false} JoinAppend(parts: seq<string>, p: string, sep: string)
    requires parts != []
    ensures Join(parts + [p], sep) == Join(parts, sep) + sep + p
  {
    if |parts| == 1 {
      assert parts + [p] == [parts[0], p];
      assert (parts + [p])[1..] == [p];
    } else {
      assert (parts + [p])[1..] == parts[1..] + [p];
      JoinAppend(parts[1..], p, sep);
    }
  }

  /** Sum of the lengths of `parts`. */
  function TotalLength(parts: seq<string>): nat {
    if parts == [] then 0 else |parts[0]| + TotalLength(parts[1..])
  }

  lemma {:induction false} JoinLength(parts: seq<string>, sep: string)
    requires parts != []
    ensures |Join(parts, sep)| == TotalLength(parts) + |sep| * (|parts| - 1)
  {
    if |parts| > 1 {
      JoinLength(parts[1..], sep);
    }
  }

  /** ASCII `str.lower` (letters outside A-Z are left alone). */
  function LowerChar(c: char): char {
    if 'A' <= c <= 'Z' then (c as int + 32) as char else c
  }

  function Lower(s: string): (r: string)
    ensures |r| == |s|
  {
    if s == [] then [] else [LowerChar(s[0])] + Lower(s[1..])
  }

  /** `s.startswith(p)`. */
  predicate StartsWith(s: string, p: string) {
    |p| <= |s| && s[..|p|] == p
  }

  predicate EndsWith(s: string, p: string) {
    |p| <= |s| && s[|s| - |p|..] == p
  }

  /** Concatenation is associative. */
  lemma AppendAssoc<T>(a: seq<T>, b: seq<T>, c: seq<T>)
    ensures (a + b) + c == a + (b + c)
  {
  }

  /** A sequence is its part before `t`, its element at `t` and its part
      after `t`. */
  lemma SplitAt<T>(s: seq<T>, t: nat)
    requires t < |s|
    ensures s == s[0..t] + [s[t]] + s[t + 1..|s|]
  {
    assert s[0..t] + [s[t]] == s[0..t + 1];
    assert s[0..t + 1] + s[t + 1..|s|] == s[0..|s|];
  }

  /** A concatenation starts with its first part and ends with its last. */
  lemma ConcatEnds(a: string, b: string, c: string)
    ensures StartsWith(a + b + c, a)
    ensures var s := a + b + c; |c| <= |s| && s[|s| - |c|..] == c
  {
    var s := a + b + c;
    assert s[..|a|] == a;
    assert s[|s| - |c|..] == c;
  }

  /** `p in s` for strings. */
  predicate Contains(s: string, p: string)
    decreases |s|
  {
    StartsWith(s, p) || (s != [] && Contains(s[1..], p))
  }

  /** `s.replace(pat, rep)`: every leftmost, non-overlapping occurrence. */
  function ReplaceAll(s: string, pat: string, rep: string): string
    requires pat != []
    decreases |s|
  {
    if |s| < |pat| then s
    else if s[..|pat|] == pat then rep + ReplaceAll(s[|pat|..], pat, rep)
    else [s[0]] + ReplaceAll(s[1..], pat, rep)
  }

  /** The index of the last `c` in `s`, or -1 (`s.rfind(c)`). */
  function LastIndex(s: string, c: char): (r: int)
    ensures -1 <= r < |s|
    ensures r >= 0 ==> s[r] == c
    ensures forall j :: r < j < |s| ==> s[j] != c
  {
    if s == [] then -1
    else if s[|s| - 1] == c then |s| - 1
    else LastIndex(s[..|s| - 1], c)
  }

  /** `os.path.basename(p)` with '/' as the separator. */
  function Basename(p: string): string {
    p[LastIndex(p, '/') + 1..]
  }

  function StripRightSlashes(s: string): string {
    if s != [] && s[|s| - 1] == '/' then StripRightSlashes(s[..|s| - 1]) else s
  }

  /** `os.path.dirname(p)` with '/' as the separator: everything before the
      last '/', trailing slashes removed unless the head is only slashes. */
  function Dirname(p: string): string {
    var head := p[..LastIndex(p, '/') + 1];
    if head != [] && StripRightSlashes(head) != [] then StripRightSlashes(head) else head
  }

  /** The extension `os.path.splitext(p)[1]`: from the last '.' of the final
      component, provided some character before it in that component is not a
      dot; otherwise "". */
  function SplitExt(p: string): string {
    var sep := LastIndex(p, '/');
    var dot := LastIndex(p, '.');
    if dot > sep && exists i :: sep + 1 <= i < dot && p[i] != '.' then p[dot..] else ""
  }

  /** `pathlib.PurePosixPath(p).suffix`: from the last '.' of the final
      component, when that dot is neither its first nor its last character. */
  function PathSuffix(p: string): string {
    var name := Basename(p);
    var dot := LastIndex(name, '.');
    if 0 < dot < |name| - 1 then name[dot..] else ""
  }

  /** `pathlib.PurePosixPath(p).stem`: the final component without its suffix. */
  function Stem(p: string): string {
    var name := Basename(p);
    var dot := LastIndex(name, '.');
    if 0 < dot < |name| - 1 then name[..dot] else name
  }

  /** A string in which the pattern's first character never occurs is left
      alone by `replace`. */
  lemma {:induction false} ReplaceAllAbsent(s: string, pat: string, rep: string)
    requires pat != []
    requires forall i :: 0 <= i < |s| ==> s[i] != pat[0]
    ensures ReplaceAll(s, pat, rep) == s
    decreases |s|
  {
    if |s| >= |pat| {
      assert s[..|pat|][0] != pat[0];
      ReplaceAllAbsent(s[1..], pat, rep);
      assert [s[0]] + s[1..] == s;
    }
  }

  /** Python's `a <= b` on strings: code-point lexicographic order. */
  predicate LexLe(a: string, b: string) {
    if a == [] then true
    else if b == [] then false
    else if a[0] != b[0] then a[0] < b[0]
    else LexLe(a[1..], b[1..])
  }

  lemma {:induction false} LexLeTotal(a: string, b: string)
    ensures LexLe(a, b) || LexLe(b, a)
  {
    if a != [] && b != [] && a[0] == b[0] {
      LexLeTotal(a[1..], b[1..]);
    }
  }

  lemma {:induction false} LexLeTrans(a: string, b: string, c: string)
    requires LexLe(a, b) && LexLe(b, c)
    ensures LexLe(a, c)
  {
    if a != [] && b != [] && c != [] && a[0] == b[0] && b[0] == c[0] {
      LexLeTrans(a[1..], b[1..], c[1..]);
    }
  }
}
