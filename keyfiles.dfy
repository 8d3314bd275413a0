/** The trust-anchor directory: which entries are key files and which of their lines
    become trust anchors (the filters of ubdns_load_keys). */
module KeyFiles {
  import opened Types
  import opened Chars

  /** An errno value: what opendir() or dirfd() leave behind when they fail. */
  type Errno = e: int | e > 0 witness 1

  /** One directory entry: its name and its lines as getline() returns them, or None
      when openat() or fdopen() fails on it. */
  datatype DirEntry = DirEntry(name: string, lines: Option<seq<string>>)

  /** The key directory: unreadable, or the entries readdir_r() returns in order. */
  datatype Listing = Unreadable(errno: Errno) | Entries(entries: seq<DirEntry>)

  const KeySuffix: string := ".key"

  /** The file-name filter: at least five characters, the suffix ".key", and an
      alphanumeric first character (so no hidden file and no "." or ".."). */
  function IsKeyFileName(fn: string): (used: bool)
    ensures used <==> |fn| >= 5 && fn[|fn| - 4..] == KeySuffix && IsAlnum(fn[0])
  {
    var n := |fn|;
    if n < 5 || !(fn[n - 4] == '.' && fn[n - 3] == 'k' && fn[n - 2] == 'e' && fn[n - 1] == 'y')
    then false
    else IsAlnum(fn[0])
  }

  /** The number of white-space characters a line starts with. */
  function LeadingSpaces(s: string): (n: nat)
    ensures n <= |s|
    ensures forall k :: 0 <= k < n ==> IsSpace(s[k])
    ensures n < |s| ==> !IsSpace(s[n])
  {
    if s != [] && IsSpace(s[0]) then 1 + LeadingSpaces(s[1..]) else 0
  }

  /** The white-space skip over a key-file line: the index of its first character
      that is not white space. */
  method SkipSpace(line: string) returns (p: nat)
    ensures p <= |line|
    ensures forall k :: 0 <= k < p ==> IsSpace(line[k])
    ensures p < |line| ==> !IsSpace(line[p])
    ensures p == LeadingSpaces(line)
  {
    p := 0;
    while p < |line| && IsSpace(line[p])
      invariant p <= |line|
      invariant forall k :: 0 <= k < p ==> IsSpace(line[k])
      invariant p + LeadingSpaces(line[p..]) == LeadingSpaces(line)
    {
      assert line[p..][1..] == line[p + 1..];
      p := p + 1;
    }
  }

  /** The anchor a key-file line gives: the C string after its leading white space,
      unless that is empty or starts a comment with ';'. The newline stays on. */
  function LineAnchor(line: string): Option<string> {
    var t := CStr(line[LeadingSpaces(line)..]);
    if t == [] || t[0] == ';' then None else Some(t)
  }

  /** What the line test keeps: a line gives no anchor iff nothing but white space
      comes before its end or a NUL, or the first other character is ';'; an anchor
      is a prefix of the rest of the line, non-empty, starting with neither white
      space nor ';', and without NUL. */
  lemma LineAnchorShape(line: string)
    ensures var rest := line[LeadingSpaces(line)..];
      && (LineAnchor(line).None? <==> CStr(rest) == [] || rest[0] == ';')
      && (LineAnchor(line).Some? ==> LineAnchor(line).value <= rest)
    ensures LineAnchor(line).Some? ==>
      var a := LineAnchor(line).value;
      a != [] && a[0] != ';' && !IsSpace(a[0]) && '\0' !in a
  {
  }

  /** After the white-space skip, the test of the first remaining character decides
      whether the line gives an anchor, and the anchor is the C string from there. */
  lemma AnchorAfterSkip(line: string, p: nat)
    requires p == LeadingSpaces(line)
    ensures LineAnchor(line).Some? <==> p < |line| && line[p] != '\0' && line[p] != ';'
    ensures LineAnchor(line).Some? ==> LineAnchor(line).value == CStr(line[p..])
  {
  }

  /** The per-line step of ubdns_load_keys: skip the leading white space, then drop
      a line that ends there or is a comment; otherwise the anchor is the C string
      from the first other character. */
  method KeyLineAnchor(line: string) returns (a: Option<string>)
    ensures a == LineAnchor(line)
  {
    var p := SkipSpace(line);
    AnchorAfterSkip(line, p);
    if p == |line| || line[p] == '\0' || line[p] == ';' {
      return None;
    }
    return Some(CStr(line[p..]));
  }

  /** The lists f gives for the elements of s, concatenated in order. */
  function FlatMap<T>(f: T -> seq<string>, s: seq<T>): seq<string>
    decreases |s|
  {
    if s == [] then [] else FlatMap(f, s[..|s| - 1]) + f(s[|s| - 1])
  }

  /** One more element adds that element's list. */
  lemma FlatMapStep<T>(f: T -> seq<string>, s: seq<T>, i: nat)
    requires i < |s|
    ensures FlatMap(f, s[..i + 1]) == FlatMap(f, s[..i]) + f(s[i])
  {
    assert s[..i + 1][..i] == s[..i];
  }

  /** A string is in the concatenation iff the list of some element holds it. */
  lemma {:induction false} FlatMapMembers<T>(f: T -> seq<string>, s: seq<T>, a: string)
    ensures a in FlatMap(f, s) <==> exists i :: 0 <= i < |s| && a in f(s[i])
    decreases |s|
  {
    if s != [] {
      var init := s[..|s| - 1];
      FlatMapMembers(f, init, a);
      if a in FlatMap(f, init) {
        var i :| 0 <= i < |init| && a in f(init[i]);
        assert s[i] == init[i];
      }
      if i :| 0 <= i < |s| && a in f(s[i]) {
        if i < |init| {
          assert init[i] == s[i];
        }
      }
    }
  }

  /** The anchor of one line, as a list of zero or one anchors. */
  function LineAnchors(line: string): (r: seq<string>)
    ensures forall a :: a in r <==> LineAnchor(line) == Some(a)
  {
    match LineAnchor(line)
    case None => []
    case Some(a) => [a]
  }

  /** The anchors of one key file, in line order. */
  function FileAnchors(lines: seq<string>): seq<string> {
    FlatMap(LineAnchors, lines)
  }

  /** One more line of a file adds that line's anchor, if it has one. */
  lemma FileAnchorsStep(lines: seq<string>, j: nat)
    requires j < |lines|
    ensures FileAnchors(lines[..j + 1]) == FileAnchors(lines[..j]) + LineAnchors(lines[j])
  {
    FlatMapStep(LineAnchors, lines, j);
  }

  /** The anchors an entry contributes: those of its lines if it is a key file that
      could be opened, none otherwise. */
  function EntryAnchors(e: DirEntry): seq<string> {
    if IsKeyFileName(e.name) && e.lines.Some? then FileAnchors(e.lines.value) else []
  }

  /** The anchors of the whole directory, entry by entry in readdir order. */
  function DirAnchors(entries: seq<DirEntry>): seq<string> {
    FlatMap(EntryAnchors, entries)
  }

  /** One more entry of a directory adds that entry's anchors. */
  lemma DirAnchorsStep(entries: seq<DirEntry>, i: nat)
    requires i < |entries|
    ensures DirAnchors(entries[..i + 1]) == DirAnchors(entries[..i]) + EntryAnchors(entries[i])
  {
    FlatMapStep(EntryAnchors, entries, i);
  }

  /** A string is an anchor of a key file iff some line of the file gives it. */
  lemma FileAnchorsMembers(lines: seq<string>, a: string)
    ensures a in FileAnchors(lines) <==> exists j :: 0 <= j < |lines| && LineAnchor(lines[j]) == Some(a)
  {
    FlatMapMembers(LineAnchors, lines, a);
  }

  /** A string is an anchor of the directory iff some entry contributes it. */
  lemma DirAnchorsMembers(entries: seq<DirEntry>, a: string)
    ensures a in DirAnchors(entries) <==> exists i :: 0 <= i < |entries| && a in EntryAnchors(entries[i])
  {
    FlatMapMembers(EntryAnchors, entries, a);
  }

  /** Every anchor handed to the engine is non-empty, starts with neither white space
      nor ';', and holds no NUL byte. */
  lemma {:induction false} DirAnchorsWellFormed(entries: seq<DirEntry>)
    ensures forall a :: a in DirAnchors(entries) ==>
      a != [] && a[0] != ';' && !IsSpace(a[0]) && '\0' !in a
  {
    forall a | a in DirAnchors(entries)
      ensures a != [] && a[0] != ';' && !IsSpace(a[0]) && '\0' !in a
    {
      DirAnchorsMembers(entries, a);
      var i :| 0 <= i < |entries| && a in EntryAnchors(entries[i]);
      FileAnchorsMembers(entries[i].lines.value, a);
      var j :| 0 <= j < |entries[i].lines.value| && LineAnchor(entries[i].lines.value[j]) == Some(a);
      LineAnchorShape(entries[i].lines.value[j]);
    }
  }

  /** Names the filter keeps and skips. */
  lemma KeyFileNameExamples()
    ensures IsKeyFileName("root.key") && IsKeyFileName("0.key")
    ensures !IsKeyFileName(".key") && !IsKeyFileName(".root.key") && !IsKeyFileName("root.key~")
  {
  }
}
