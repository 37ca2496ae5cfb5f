/** Turning a file name offered by a peer into one that stays inside the download directory. */
module FileNames {

  /** The characters that QChar::isSpace accepts. */
  predicate IsSpace(c: char) {
    var code := c as int;
    || 0x09 <= code <= 0x0D || code == 0x20 || code == 0x85 || code == 0xA0 || code == 0x1680
    || 0x2000 <= code <= 0x200A || code == 0x2028 || code == 0x2029 || code == 0x202F
    || code == 0x205F || code == 0x3000
  }

  function SlashesForward(s: string): (r: string)
    ensures |r| == |s|
  {
    seq(|s|, i requires 0 <= i < |s| => if s[i] == '\\' then '/' else s[i])
  }

  /** What follows the last slash. */
  function LastSegment(s: string): (r: string)
    ensures '/' !in r
  {
    if '/' in s then LastSegment(s[1..]) else s
  }

  function Without(s: string, c: char): string {
    if s == [] then [] else if s[0] == c then Without(s[1..], c) else [s[0]] + Without(s[1..], c)
  }

  /** One left-to-right pass that drops each pair of dots it meets. */
  function WithoutDotPairs(s: string): string {
    if |s| < 2 then s
    else if s[0] == '.' && s[1] == '.' then WithoutDotPairs(s[2..])
    else [s[0]] + WithoutDotPairs(s[1..])
  }

  function TrimmedLeft(s: string): string {
    if s != [] && IsSpace(s[0]) then TrimmedLeft(s[1..]) else s
  }

  function TrimmedRight(s: string): string {
    if s != [] && IsSpace(s[|s| - 1]) then TrimmedRight(s[..|s| - 1]) else s
  }

  function Trimmed(s: string): string {
    TrimmedRight(TrimmedLeft(s))
  }

  const FALLBACK := "received_file"

  function SanitizeFileName(rawName: string): string {
    var clean := LastSegment(SlashesForward(rawName));
    var bare := Without(Without(clean, '/'), '\\');
    var trimmed := Trimmed(WithoutDotPairs(bare));
    if trimmed == "" || trimmed == "." || trimmed == ".." then FALLBACK else trimmed
  }

  // ---------------------------------------------------------------------
  // What sanitising achieves
  // ---------------------------------------------------------------------

  predicate NoDotPair(s: string) {
    forall i :: 0 <= i < |s| - 1 ==> s[i] != '.' || s[i + 1] != '.'
  }

  /** Names that cannot leave their directory. */
  predicate Safe(s: string) {
    && s != "" && s != "."
    && '/' !in s && '\\' !in s && NoDotPair(s)
    && !IsSpace(s[0]) && !IsSpace(s[|s| - 1])
  }

  /** Everything that is true of the characters and the dots of `s` is true of those of `r`. */
  predicate Within(r: string, s: string) {
    && (forall c :: c in r ==> c in s)
    && (NoDotPair(s) ==> NoDotPair(r))
  }

  lemma {:induction false} WithoutSpec(s: string, c: char)
    ensures c !in Without(s, c)
    ensures forall d :: d in Without(s, c) ==> d in s
    ensures c !in s ==> Without(s, c) == s
  {
    if s != [] {
      WithoutSpec(s[1..], c);
    }
  }

  lemma {:induction false} WithoutDotPairsSpec(s: string)
    ensures NoDotPair(WithoutDotPairs(s)) && Within(WithoutDotPairs(s), s)
    ensures NoDotPair(s) ==> WithoutDotPairs(s) == s
    ensures s != [] && s[0] != '.' ==> WithoutDotPairs(s) != [] && WithoutDotPairs(s)[0] == s[0]
  {
    if |s| >= 2 {
      if s[0] == '.' && s[1] == '.' {
        WithoutDotPairsSpec(s[2..]);
      } else {
        WithoutDotPairsSpec(s[1..]);
      }
    }
  }

  lemma {:induction false} TrimmedLeftSpec(s: string)
    ensures Within(TrimmedLeft(s), s)
    ensures TrimmedLeft(s) != "" ==> !IsSpace(TrimmedLeft(s)[0])
  {
    if s != [] && IsSpace(s[0]) {
      TrimmedLeftSpec(s[1..]);
    }
  }

  lemma {:induction false} TrimmedRightSpec(s: string)
    ensures Within(TrimmedRight(s), s)
    ensures var r := TrimmedRight(s); r != "" ==> r[0] == s[0] && !IsSpace(r[|r| - 1])
  {
    if s != [] && IsSpace(s[|s| - 1]) {
      TrimmedRightSpec(s[..|s| - 1]);
    }
  }

  lemma FallbackIsSafe()
    ensures Safe(FALLBACK)
  {
  }

  /** Whatever a peer offers becomes a safe name, and safe names are left alone. */
  lemma SanitizeSpec(rawName: string)
    ensures Safe(SanitizeFileName(rawName))
    ensures Safe(rawName) <==> SanitizeFileName(rawName) == rawName
  {
    hide IsSpace;
    FallbackIsSafe();
    var clean := LastSegment(SlashesForward(rawName));
    var bare := Without(Without(clean, '/'), '\\');
    WithoutSpec(clean, '/');
    WithoutSpec(Without(clean, '/'), '\\');
    var undotted := WithoutDotPairs(bare);
    WithoutDotPairsSpec(bare);
    TrimmedLeftSpec(undotted);
    TrimmedRightSpec(TrimmedLeft(undotted));
    if Safe(rawName) {
      assert SlashesForward(rawName) == rawName;
    }
  }

  // ---------------------------------------------------------------------
  // What survives
  // ---------------------------------------------------------------------

  predicate IsSeparator(c: char) {
    c == '/' || c == '\\'
  }

  predicate HasSeparator(s: string) {
    '/' in s || '\\' in s
  }

  /** The characters that are neither dots nor white space, in order. */
  function Letters(s: string): string {
    if s == [] then []
    else (if s[0] == '.' || IsSpace(s[0]) then [] else [s[0]]) + Letters(s[1..])
  }

  lemma {:induction false} LettersAppend(s: string, t: string)
    ensures Letters(s + t) == Letters(s) + Letters(t)
  {
    hide IsSpace;
    if s == [] {
      assert s + t == t;
    } else {
      assert (s + t)[1..] == s[1..] + t;
      LettersAppend(s[1..], t);
    }
  }

  lemma LettersOfOne(c: char)
    ensures Letters([c]) == if c == '.' || IsSpace(c) then [] else [c]
  {
    hide IsSpace;
    assert [c][1..] == [];
  }

  lemma {:induction false} LastSegmentIs(directory: string, name: string)
    requires '/' !in name
    ensures LastSegment(directory + "/" + name) == name && LastSegment(name) == name
  {
    var s := directory + "/" + name;
    assert s[|directory|] == '/';
    if directory == "" {
      assert s[1..] == name;
    } else {
      assert s[1..] == directory[1..] + "/" + name;
      LastSegmentIs(directory[1..], name);
    }
  }

  lemma {:induction false} TrimmedKeepsLetters(s: string)
    ensures Letters(TrimmedLeft(s)) == Letters(s) == Letters(TrimmedRight(s))
    decreases |s|
  {
    hide IsSpace;
    if s != [] && IsSpace(s[0]) {
      TrimmedKeepsLetters(s[1..]);
    }
    if s != [] && IsSpace(s[|s| - 1]) {
      var front, c := s[..|s| - 1], s[|s| - 1];
      TrimmedKeepsLetters(front);
      assert s == front + [c];
      LettersAppend(front, [c]);
      LettersOfOne(c);
    }
  }

  lemma {:induction false} DotPairsKeepLetters(s: string)
    ensures Letters(WithoutDotPairs(s)) == Letters(s) && (|s| - |WithoutDotPairs(s)|) % 2 == 0
    decreases |s|
  {
    hide IsSpace;
    if |s| >= 2 {
      if s[0] == '.' && s[1] == '.' {
        DotPairsKeepLetters(s[2..]);
        assert s[1..][1..] == s[2..] && s[1..][0] == '.';
      } else {
        DotPairsKeepLetters(s[1..]);
        assert ([s[0]] + WithoutDotPairs(s[1..]))[1..] == WithoutDotPairs(s[1..]);
      }
    }
  }

  /**
   Of an offered path only the part behind the last separator, of either kind, plays a part. If that is safe it is
   the result; otherwise its letters survive in order, unless it has none.
   */
  lemma SanitizeKeepsName(directory: string, separator: char, name: string)
    requires IsSeparator(separator) && !HasSeparator(name)
    ensures SanitizeFileName(directory + [separator] + name) == SanitizeFileName(name)
    ensures Safe(name) ==> SanitizeFileName(name) == name
    ensures Letters(name) != "" ==> Letters(SanitizeFileName(name)) == Letters(name)
  {
    hide IsSpace, Letters;
    SanitizeSpec(name);
    var s := directory + [separator] + name;
    assert SlashesForward(s) == SlashesForward(directory) + "/" + SlashesForward(name);
    assert forall i :: 0 <= i < |name| ==> name[i] in name;
    assert SlashesForward(name) == name;
    LastSegmentIs(SlashesForward(directory), name);
    WithoutSpec(name, '/');
    WithoutSpec(name, '\\');
    DotPairsKeepLetters(name);
    TrimmedKeepsLetters(WithoutDotPairs(name));
    TrimmedKeepsLetters(TrimmedLeft(WithoutDotPairs(name)));
    NoLetters();
  }

  lemma NoLetters()
    ensures Letters("") == "" && Letters(".") == "" && Letters("..") == ""
  {
    hide IsSpace;
    assert ".."[1..] == "." && "."[1..] == "";
  }

  /** Sanitising at send, in the offer, on receipt and at session creation is sanitising once. */
  lemma SanitizeIdempotent(rawName: string)
    ensures SanitizeFileName(SanitizeFileName(rawName)) == SanitizeFileName(rawName)
  {
    SanitizeSpec(rawName);
    SanitizeSpec(SanitizeFileName(rawName));
  }
}
