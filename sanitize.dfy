/** `sanitize_string` of url/utils.py, which turns a page title into a file
    name: four regular-expression substitutions applied one after another,
    each written out here as the character filter or prefix rewrite it
    performs. The GitHub client and the summariser in the same file are left
    out. */
module UrlUtils {
  import opened Common

  /** The class `[~^:*?[\]\\/|<>".%]`. */
  predicate IsIllegal(c: char)
  {
    || c == '~' || c == '^' || c == ':' || c == '*' || c == '?' || c == '[' || c == ']' || c == '\\'
    || c == '/' || c == '|' || c == '<' || c == '>' || c == '"' || c == '.' || c == '%'
  }

  /** The class `[\x00-\x1f\x7f]`. */
  predicate IsControl(c: char)
  {
    c as int < 0x20 || c as int == 0x7f
  }

  /** `a` is obtained from `b` by deleting characters. */
  predicate IsSubsequence(a: string, b: string)
    decreases |b|
  {
    if b == [] then a == []
    else IsSubsequence(a, b[1..]) || (a != [] && a[0] == b[0] && IsSubsequence(a[1..], b[1..]))
  }

  lemma {:induction false} SubsequenceShorter(a: string, b: string)
    requires IsSubsequence(a, b)
    ensures |a| <= |b|
    decreases |b|
  {
    if b != [] {
      if IsSubsequence(a, b[1..]) {
        SubsequenceShorter(a, b[1..]);
      } else {
        SubsequenceShorter(a[1..], b[1..]);
      }
    }
  }

  lemma {:induction false} SubsequenceTransitive(a: string, b: string, c: string)
    requires IsSubsequence(a, b) && IsSubsequence(b, c)
    ensures IsSubsequence(a, c)
    decreases |c|
  {
    if c == [] {
    } else if IsSubsequence(b, c[1..]) {
      SubsequenceTransitive(a, b, c[1..]);
    } else if IsSubsequence(a, b[1..]) {
      SubsequenceTransitive(a, b[1..], c[1..]);
    } else {
      SubsequenceTransitive(a[1..], b[1..], c[1..]);
    }
  }

  lemma {:induction false} SuffixIsSubsequence(s: string, k: nat)
    requires k <= |s|
    ensures IsSubsequence(s[k..], s)
    decreases |s|
  {
    if k == |s| {
      EmptyIsSubsequence(s);
    } else if k == 0 {
      SubsequenceReflexive(s);
    } else {
      assert s[k..] == s[1..][k - 1..];
      SuffixIsSubsequence(s[1..], k - 1);
    }
  }

  lemma {:induction false} EmptyIsSubsequence(s: string)
    ensures IsSubsequence([], s)
    decreases |s|
  {
    if s != [] { EmptyIsSubsequence(s[1..]); }
  }

  lemma {:induction false} SubsequenceReflexive(s: string)
    ensures IsSubsequence(s, s)
    decreases |s|
  {
    if s != [] { SubsequenceReflexive(s[1..]); }
  }

  /** `re.sub` of a one-character class with '': every character the class
      matches is deleted and the others are kept in order. */
  function Remove(s: string, drop: char -> bool): (r: string)
    ensures forall i :: 0 <= i < |r| ==> !drop(r[i])
    ensures forall i :: 0 <= i < |r| ==> r[i] in s
    ensures IsSubsequence(r, s)
    ensures (forall i :: 0 <= i < |s| ==> !drop(s[i])) ==> r == s
    decreases |s|
  {
    if s == [] then []
    else
      var rest := Remove(s[1..], drop);
      assert forall i :: 1 <= i < |s| ==> s[i] == s[1..][i - 1];
      if drop(s[0]) then rest else [s[0]] + rest
  }

  function LowerAll(s: string): (l: string)
    ensures |l| == |s|
  {
    seq(|s|, i requires 0 <= i < |s| => ToLower(s[i]))
  }

  predicate IsDigit(c: char)
  {
    '0' <= c <= '9'
  }

  /** Length of the reserved device name `con|prn|aux|nul|com[0-9]|lpt[0-9]`
      (any case) that `s` starts with, or 0. Under `re.I` none of these
      letters has a non-ASCII case variant, so ASCII lower-casing is exact. */
  function NameLength(s: string): (n: nat)
    ensures n == 0 || n == 3 || n == 4
    ensures n <= |s|
  {
    if |s| >= 3 && LowerAll(s[..3]) in ["con", "prn", "aux", "nul"] then 3
    else if |s| >= 4 && LowerAll(s[..3]) in ["com", "lpt"] && IsDigit(s[3]) then 4
    else 0
  }

  /** The whole string is a reserved device name. */
  predicate IsReservedName(s: string)
  {
    NameLength(s) == |s| && s != []
  }

  /** `re.sub(r'^(con|prn|aux|nul|com[0-9]|lpt[0-9])(\..*)?$', '', s, flags=re.I)`:
      a name, optionally a dot and characters other than a newline, then the
      end of the string or a final newline, which `$` leaves in place. The
      match is anchored at the start, so at most one is removed. */
  function RemoveReserved(s: string): (r: string)
    ensures r == s || r == [] || r == "\n"
  {
    var n := NameLength(s);
    if n == 0 then s
    else
      var rest := s[n..];
      var body := if rest != [] && rest[|rest| - 1] == '\n' then rest[..|rest| - 1] else rest;
      if body == [] || (body[0] == '.' && '\n' !in body) then
        if |body| < |rest| then "\n" else []
      else s
  }

  /** `re.sub(r'^[. ]+', '', s)`: the leading dots and spaces are dropped. */
  function StripLeading(s: string): (r: string)
    ensures |r| <= |s| && r == s[|s| - |r|..]
    ensures r == [] || (r[0] != '.' && r[0] != ' ')
    ensures s == [] || (s[0] != '.' && s[0] != ' ') ==> r == s
    decreases |s|
  {
    if s != [] && (s[0] == '.' || s[0] == ' ') then StripLeading(s[1..]) else s
  }

  /** A character that neither class matches. */
  predicate Allowed(c: char)
  {
    !IsIllegal(c) && !IsControl(c)
  }

  /** No character of either class. */
  predicate IsClean(s: string)
  {
    forall i :: 0 <= i < |s| ==> Allowed(s[i])
  }

  /** The first two substitutions: illegal characters, then control
      characters, are deleted. */
  function Clean(s: string): (r: string)
    ensures IsClean(r)
    ensures IsSubsequence(r, s)
    ensures IsClean(s) ==> r == s
  {
    var legal := Remove(s, IsIllegal);
    var printable := Remove(legal, IsControl);
    SubsequenceTransitive(printable, legal, s);
    printable
  }

  lemma StripKeepsClean(s: string)
    requires IsClean(s)
    ensures IsClean(StripLeading(s))
  {
    var r := StripLeading(s);
    forall i | 0 <= i < |r| ensures Allowed(r[i]) {
      assert r[i] == s[|s| - |r| + i];
    }
  }

  /** `sanitize_string`, in the source's order: illegal characters, control
      characters, reserved names, then leading dots and spaces. */
  function Sanitize(s: string): (r: string)
    ensures IsClean(r)
    ensures r == [] || (r[0] != ' ' && r[0] != '.')
    ensures IsSubsequence(r, s)
    ensures |r| <= |s|
  {
    var printable := Clean(s);
    var named := RemoveReserved(printable);
    ReservedKeepsClean(printable, s);
    var r := StripLeading(named);
    StripKeepsCleanSubsequence(named, s);
    r
  }

  /** The reserved-name rule keeps a clean subsequence clean. */
  lemma ReservedKeepsClean(printable: string, s: string)
    requires IsClean(printable) && IsSubsequence(printable, s)
    ensures IsClean(RemoveReserved(printable)) && IsSubsequence(RemoveReserved(printable), s)
  {
    ReservedOnCleanText(printable);
    EmptyIsSubsequence(s);
  }

  /** The strip keeps a clean subsequence clean, and a subsequence. */
  lemma StripKeepsCleanSubsequence(named: string, s: string)
    requires IsClean(named) && IsSubsequence(named, s)
    ensures var r := StripLeading(named); IsClean(r) && IsSubsequence(r, s) && |r| <= |s|
  {
    var r := StripLeading(named);
    StripKeepsClean(named);
    SuffixIsSubsequence(named, |named| - |r|);
    SubsequenceTransitive(r, named, s);
    SubsequenceShorter(r, s);
  }

  /** Once dots and control characters are gone, the optional `(\..*)` part
      and the final newline can never take part: the substitution empties
      exactly the strings that are a reserved name and nothing else. */
  lemma ReservedOnCleanText(s: string)
    requires IsClean(s)
    ensures RemoveReserved(s) == if IsReservedName(s) then [] else s
  {
    var n := NameLength(s);
    if n != 0 {
      var rest := s[n..];
      if rest != [] {
        assert rest[0] == s[n] && rest[|rest| - 1] == s[|s| - 1];
        assert IsControl('\n') && IsIllegal('.');
      }
    }
  }

  /** Text that needs no cleaning comes back unchanged. */
  lemma SanitizeKeepsCleanText(s: string)
    requires IsClean(s)
    requires s == [] || (s[0] != ' ' && s[0] != '.')
    requires !IsReservedName(s)
    ensures Sanitize(s) == s
  {
    ReservedOnCleanText(s);
  }

  predicate IsAsciiLetterOrDigit(c: char)
  {
    'a' <= c <= 'z' || 'A' <= c <= 'Z' || IsDigit(c)
  }

  /** A reserved name is made of ASCII letters and digits only. */
  lemma ReservedNameIsPlain(w: string)
    requires IsReservedName(w)
    ensures forall i :: 0 <= i < |w| ==> IsAsciiLetterOrDigit(w[i])
  {
    var p := LowerAll(w[..3]);
    assert forall i :: 0 <= i < 3 ==> 'a' <= p[i] <= 'z';
    forall i | 0 <= i < |w| ensures IsAsciiLetterOrDigit(w[i]) {
      if i < 3 {
        assert p[i] == ToLower(w[i]);
      }
    }
  }

  /** A reserved name behind a leading space escapes the reserved-name rule:
      the rule runs before the strip, so " con" comes out as "con". */
  lemma SanitizeLetsReservedNameThrough(w: string)
    requires IsReservedName(w)
    ensures Sanitize([' '] + w) == w
    ensures IsReservedName(Sanitize([' '] + w))
  {
    var s := [' '] + w;
    ReservedNameIsPlain(w);
    assert IsClean(s) by {
      forall i | 0 <= i < |s| ensures Allowed(s[i]) {
        if i > 0 {
          assert s[i] == w[i - 1] && IsAsciiLetterOrDigit(w[i - 1]);
        }
      }
    }
    assert NameLength(s) == 0 by {
      assert LowerAll(s[..3])[0] == ' ';
    }
    assert s[1..] == w;
    NameStartsWithLetter(w);
  }

  lemma ConIsReserved()
    ensures IsReservedName("con")
  {
    var l := LowerAll("con"[..3]);
    assert l[0] == 'c' && l[1] == 'o' && l[2] == 'n';
    assert l == "con";
  }

  /** A string that starts with a reserved name starts with a letter. */
  lemma NameStartsWithLetter(s: string)
    requires NameLength(s) != 0
    ensures s[0] != ' ' && s[0] != '.'
  {
    assert LowerAll(s[..3])[0] == ToLower(s[0]);
  }

  /** The intended rule: the reserved-name check applied to the stripped
      text, so that no reserved name can come out. */
  function SanitizeFileName(s: string): (r: string)
    ensures IsClean(r)
    ensures r == [] || (r[0] != ' ' && r[0] != '.')
    ensures !IsReservedName(r)
    ensures IsSubsequence(r, s)
  {
    var printable := Clean(s);
    var stripped := StripLeading(printable);
    StripKeepsCleanSubsequence(printable, s);
    ReservedOnCleanText(stripped);
    EmptyIsSubsequence(s);
    RemoveReserved(stripped)
  }

  /** The corrected rule differs from `sanitize_string` only where the
      latter lets a reserved name through, and then gives "". */
  lemma SanitizeFileNameAgrees(s: string)
    ensures SanitizeFileName(s) == if IsReservedName(Sanitize(s)) then [] else Sanitize(s)
  {
    var printable := Clean(s);
    var stripped := StripLeading(printable);
    StripKeepsClean(printable);
    ReservedOnCleanText(printable);
    ReservedOnCleanText(stripped);
    if IsReservedName(printable) {
      NameStartsWithLetter(printable);
      assert stripped == printable;
    }
  }
}
