/**
 * The `System.IO.Path` helpers the launcher uses, on Windows-style paths whose
 * only directory separator is the backslash. A path is rooted when it starts
 * with a backslash or has a drive colon in second position. This is a concrete
 * model of the cases the launcher meets, not the full .NET semantics (no `/`
 * separator, no UNC or device paths, no `C:name` volume-relative split).
 */
module Paths {
  import opened Wrappers

  const Separator: char := '\\'

  /** A letter that can name a drive. */
  predicate IsDriveLetter(c: char) {
    'A' <= c <= 'Z' || 'a' <= c <= 'z'
  }

  /** `s` starts with a drive, a letter and a colon. */
  predicate HasDrive(s: string) {
    |s| >= 2 && IsDriveLetter(s[0]) && s[1] == ':'
  }

  /** `Path.IsPathRooted`. */
  predicate IsRooted(s: string) {
    (|s| >= 1 && s[0] == Separator) || HasDrive(s)
  }

  /** No character of `s` is a separator. */
  predicate NoSeparator(s: string) {
    forall i :: 0 <= i < |s| ==> s[i] != Separator
  }

  /** The position of the last separator in `s`, if any. */
  function LastSeparator(s: string): (r: Option<nat>)
    ensures r.Some? ==> r.value < |s| && s[r.value] == Separator && NoSeparator(s[r.value + 1..])
    ensures r.None? ==> NoSeparator(s)
  {
    if s == [] then None
    else if s[|s| - 1] == Separator then Some(|s| - 1)
    else
      var r := LastSeparator(s[..|s| - 1]);
      assert r.Some? ==> s[r.value + 1..] == s[..|s| - 1][r.value + 1..] + [s[|s| - 1]];
      r
  }

  /** A separator at `k` with none after it is the last one. */
  lemma LastSeparatorAt(s: string, k: nat)
    requires k < |s| && s[k] == Separator && NoSeparator(s[k + 1..])
    ensures LastSeparator(s) == Some(k)
  {
  }

  /** `Path.GetFileName`: what follows the last separator. */
  function GetFileName(s: string): (r: string)
    ensures NoSeparator(r)
    ensures |r| <= |s| && r == s[|s| - |r|..]
    ensures |r| < |s| ==> s[|s| - |r| - 1] == Separator
  {
    match LastSeparator(s)
    case None => s
    case Some(k) => s[k + 1..]
  }

  /** The separator at `k` ends the root of `s` (`\` or `X:\`). */
  predicate RootEndsAt(s: string, k: nat)
    requires k < |s|
  {
    k == 0 || (k == 2 && HasDrive(s))
  }

  /** `Path.GetDirectoryName`: null for the empty path and for a bare root,
      empty for a path with no separator, the root itself for an entry
      directly under a root, and otherwise everything before the last
      separator. */
  function GetDirectoryName(s: string): (r: Option<string>)
    ensures r.Some? ==> |r.value| < |s| && r.value == s[..|r.value|]
    ensures r.None? <==> s == "" || s == [Separator] || (|s| == 3 && HasDrive(s) && s[2] == Separator)
    ensures r == Some("") <==> s != "" && NoSeparator(s)
    ensures r.Some? && r.value != "" ==>
              var n := |r.value|;
              || (s[n] == Separator && NoSeparator(s[n + 1..]) && !RootEndsAt(s, n))
              || (s[n - 1] == Separator && NoSeparator(s[n..]) && RootEndsAt(s, n - 1))
  {
    if s == "" then None
    else
      match LastSeparator(s)
      case None => Some("")
      case Some(k) =>
        if RootEndsAt(s, k) then
          (if k + 1 == |s| then None else Some(s[..k + 1]))
        else Some(s[..k])
  }

  /** The position of the last '.' that no separator follows, if any. */
  function LastDot(s: string): (r: Option<nat>)
    ensures r.Some? ==> r.value < |s| && s[r.value] == '.'
    ensures r.Some? ==> forall j :: r.value < j < |s| ==> s[j] != '.' && s[j] != Separator
    ensures r.None? ==> forall i :: 0 <= i < |s| && s[i] == '.' ==> exists j :: i < j < |s| && s[j] == Separator
  {
    if s == [] then None
    else if s[|s| - 1] == '.' then Some(|s| - 1)
    else if s[|s| - 1] == Separator then None
    else LastDot(s[..|s| - 1])
  }

  /** `Path.GetExtension`: from the last dot of the file name to the end, or
      empty when the name has no dot or ends with one. */
  function GetExtension(s: string): (r: string)
    ensures r == "" <==>
              || (s != "" && s[|s| - 1] == '.')
              || forall i :: 0 <= i < |s| && s[i] == '.' ==> exists j :: i < j < |s| && s[j] == Separator
    ensures r != "" ==>
              && 2 <= |r| <= |s| && r[0] == '.' && r == s[|s| - |r|..]
              && forall i :: 1 <= i < |r| ==> r[i] != '.' && r[i] != Separator
  {
    match LastDot(s)
    case None => ""
    case Some(i) => if i == |s| - 1 then "" else s[i..]
  }

  /** Adds `part` after `acc` the way `Path.Combine` joins a relative part:
      empty parts vanish and one separator is put between the two. */
  function Append(acc: string, part: string): string {
    if part == "" then acc
    else if acc == "" then part
    else if acc[|acc| - 1] == Separator then acc + part
    else acc + [Separator] + part
  }

  /** What `Append` makes starts with what it appends to. */
  lemma AppendStartsWith(acc: string, part: string)
    ensures |acc| <= |Append(acc, part)| && Append(acc, part)[..|acc|] == acc
  {
  }

  /** `Path.Combine(a, b)`: a rooted second part replaces the first. */
  function Combine(a: string, b: string): (r: string)
    ensures b != "" && IsRooted(b) ==> r == b
    ensures !IsRooted(b) ==> r == Append(a, b)
  {
    if a == "" then b
    else if b == "" then a
    else if IsRooted(b) then b
    else Append(a, b)
  }

  /** A non-empty second part ends what `Combine` makes. */
  lemma CombineEndsWith(a: string, b: string)
    requires b != ""
    ensures |b| <= |Combine(a, b)| && Combine(a, b)[|Combine(a, b)| - |b|..] == b
  {
  }

  /** Combining two paths that avoid a character other than the separator
      gives a path that avoids it too. */
  lemma CombineAvoids(a: string, b: string, c: char)
    requires c != Separator && c !in a && c !in b
    ensures c !in Combine(a, b)
  {
    if a != "" && b != "" && !IsRooted(b) && a[|a| - 1] != Separator {
      assert Combine(a, b) == a + [Separator] + b;
    }
  }

  /** A text without a backslash has no separator. */
  lemma NoSeparatorOfText(s: string)
    requires Separator !in s
    ensures NoSeparator(s)
  {
  }

  /** The index of the last non-empty rooted part, or 0 when there is none. */
  function LastRootedPart(parts: seq<string>): (r: nat)
    ensures r == 0 || r < |parts|
  {
    if parts == [] then 0
    else if parts[|parts| - 1] != "" && IsRooted(parts[|parts| - 1]) then |parts| - 1
    else LastRootedPart(parts[..|parts| - 1])
  }

  /** Joins parts left to right with `Append`. */
  function JoinParts(parts: seq<string>): string {
    if parts == [] then "" else Append(JoinParts(parts[..|parts| - 1]), parts[|parts| - 1])
  }

  /** One part joins to itself and two parts to their `Append`. */
  lemma JoinPartsOfFew(parts: seq<string>)
    ensures |parts| == 1 ==> JoinParts(parts) == parts[0]
    ensures |parts| == 2 ==> JoinParts(parts) == Append(parts[0], parts[1])
  {
    if |parts| == 2 {
      assert parts[..1] == [parts[0]];
    }
  }

  /** `Path.Combine(params string[])`: everything before the last rooted part
      is dropped and the rest is joined. One part is itself, two parts are
      the two-part `Combine`, and a rooted last part is the whole result. */
  function CombineAll(parts: seq<string>): (r: string)
    ensures |parts| == 1 ==> r == parts[0]
    ensures |parts| == 2 ==> r == Combine(parts[0], parts[1])
    ensures parts != [] && parts[|parts| - 1] != "" && IsRooted(parts[|parts| - 1]) ==> r == parts[|parts| - 1]
  {
    var k := LastRootedPart(parts);
    assert parts != [] && parts[|parts| - 1] != "" && IsRooted(parts[|parts| - 1]) ==> parts[k..] == [parts[|parts| - 1]];
    assert |parts| <= 2 && k == 0 ==> parts[k..] == parts;
    JoinPartsOfFew(parts[k..]);
    JoinParts(parts[k..])
  }

  /** Joining parts that all avoid a character other than the separator
      gives a path that avoids it too. */
  lemma {:induction false} JoinPartsAvoids(parts: seq<string>, c: char)
    requires c != Separator
    requires forall i :: 0 <= i < |parts| ==> c !in parts[i]
    ensures c !in JoinParts(parts)
  {
    if parts != [] {
      var init, last := parts[..|parts| - 1], parts[|parts| - 1];
      assert forall i :: 0 <= i < |init| ==> init[i] == parts[i];
      JoinPartsAvoids(init, c);
      var acc := JoinParts(init);
      if last != "" && acc != "" && acc[|acc| - 1] != Separator {
        assert Append(acc, last) == acc + [Separator] + last;
      }
    }
  }

  /** The params form of `Combine` avoids every character, other than the
      separator, that all its parts avoid. */
  lemma CombineAllAvoids(parts: seq<string>, c: char)
    requires c != Separator
    requires forall i :: 0 <= i < |parts| ==> c !in parts[i]
    ensures c !in CombineAll(parts)
  {
    var k := LastRootedPart(parts);
    assert forall i :: 0 <= i < |parts[k..]| ==> parts[k..][i] == parts[k + i];
    JoinPartsAvoids(parts[k..], c);
  }

  /** Combining several parts at once is the same as combining them two at a
      time: adding one more part to `CombineAll` is a two-part `Combine`. */
  lemma {:induction false} CombineAllSnoc(parts: seq<string>, last: string)
    ensures CombineAll(parts + [last]) == Combine(CombineAll(parts), last)
  {
    var all := parts + [last];
    assert all[..|all| - 1] == parts;
    if last != "" && IsRooted(last) {
      assert all[LastRootedPart(all)..] == [last];
      assert JoinParts([last]) == Append(JoinParts([]), last);
    } else {
      var r := LastRootedPart(parts);
      assert LastRootedPart(all) == r;
      assert all[r..] == parts[r..] + [last];
      assert all[r..][..|all[r..]| - 1] == parts[r..];
    }
  }

  /** A file name without separators, combined under a directory, is what
      `GetFileName` gives back. */
  lemma FileNameOfCombine(dir: string, name: string)
    requires name != "" && !IsRooted(name) && NoSeparator(name)
    ensures GetFileName(Combine(dir, name)) == name
  {
    var p := Combine(dir, name);
    if dir != "" {
      var k := if dir[|dir| - 1] == Separator then |dir| - 1 else |dir|;
      assert p[k + 1..] == name;
      LastSeparatorAt(p, k);
    }
  }

  /** Combining a plain file name under a directory that is not a root and
      has no trailing separator puts the file directly inside that
      directory. */
  lemma DirectoryOfCombine(dir: string, name: string)
    requires name != "" && !IsRooted(name) && NoSeparator(name)
    requires dir != "" && dir[|dir| - 1] != Separator && !(|dir| == 2 && HasDrive(dir))
    ensures Combine(dir, name) == dir + [Separator] + name
    ensures GetDirectoryName(Combine(dir, name)) == Some(dir)
  {
    var p := Combine(dir, name);
    assert p[|dir| + 1..] == name;
    LastSeparatorAt(p, |dir|);
    assert p[..|dir|] == dir;
  }

  /** A suffix that starts with a dot and has neither dots nor separators
      after it is the extension. */
  lemma {:induction false} ExtensionOfSuffix(s: string, ext: string)
    requires 2 <= |ext| && ext[0] == '.'
    requires forall i :: 1 <= i < |ext| ==> ext[i] != '.' && ext[i] != Separator
    ensures GetExtension(s + ext) == ext
  {
    var t := s + ext;
    assert t == s + ext[..|ext|];
    LastDotOfSuffix(s, ext, |ext|);
    assert LastDot(t) == Some(|s|);
    assert |s| != |t| - 1;
    assert t[|s|..] == ext;
  }

  lemma {:induction false} LastDotOfSuffix(s: string, ext: string, n: nat)
    requires 2 <= |ext| && ext[0] == '.' && 1 <= n <= |ext|
    requires forall i :: 1 <= i < |ext| ==> ext[i] != '.' && ext[i] != Separator
    ensures LastDot(s + ext[..n]) == Some(|s|)
    decreases n
  {
    var t := s + ext[..n];
    if n > 1 {
      assert t[|t| - 1] == ext[n - 1];
      assert t[..|t| - 1] == s + ext[..n - 1];
      LastDotOfSuffix(s, ext, n - 1);
    } else {
      assert t[|t| - 1] == '.';
    }
  }
}
