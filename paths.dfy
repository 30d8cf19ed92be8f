/** Small string predicates of the scripts: Python's `os.path.splitext` on the
    names `os.listdir` returns, the exact-match extension filters, the output
    name, decimal-comma normalisation and the yes/no prompt test. */
module Paths {

  /** Index of the last occurrence of `c` in `p`, or -1 (Python's `rfind`). */
  function LastIndex(p: string, c: char): (r: int)
    ensures -1 <= r < |p|
    ensures r >= 0 ==> p[r] == c
    ensures forall j :: r < j < |p| ==> p[j] != c
  {
    if p == [] then -1
    else if p[|p| - 1] == c then |p| - 1
    else LastIndex(p[..|p| - 1], c)
  }

  /** Some character after the last '/' is not a dot, so that a final dot
      starts an extension rather than a hidden-file name. */
  predicate HasBaseChar(stem: string)
  {
    exists k :: LastIndex(stem, '/') < k < |stem| && stem[k] != '.'
  }

  /** An extension: a dot followed by neither dots nor slashes. */
  predicate IsExtension(e: string)
  {
    |e| >= 1 && e[0] == '.' && forall k :: 1 <= k < |e| ==> e[k] != '.' && e[k] != '/'
  }

  /** `os.path.splitext` (POSIX): split at the last dot of the last path
      component unless that component is only dots before it. */
  function SplitExt(p: string): (r: (string, string))
    ensures r.0 + r.1 == p
    ensures r.1 == "" || (IsExtension(r.1) && HasBaseChar(r.0))
  {
    var sep := LastIndex(p, '/');
    var dot := LastIndex(p, '.');
    if dot > sep && exists k :: sep < k < dot && p[k] != '.' then
      assert LastIndex(p[..dot], '/') == sep by { LastIndexPrefix(p, '/', dot); }
      (p[..dot], p[dot..])
    else (p, "")
  }

  lemma {:induction false} LastIndexPrefix(p: string, c: char, n: nat)
    requires n <= |p|
    requires LastIndex(p, c) < n
    ensures LastIndex(p[..n], c) == LastIndex(p, c)
    decreases |p|
  {
    if n < |p| {
      assert p[|p| - 1] != c;
      assert p[..|p| - 1][..n] == p[..n];
      LastIndexPrefix(p[..|p| - 1], c, n);
    } else {
      assert p[..n] == p;
    }
  }

  lemma {:induction false} LastIndexAppend(p: string, e: string, c: char)
    requires forall k :: 0 <= k < |e| ==> e[k] != c
    ensures LastIndex(p + e, c) == LastIndex(p, c)
    decreases |e|
  {
    if e != [] {
      assert (p + e)[..|p + e| - 1] == p + e[..|e| - 1];
      LastIndexAppend(p, e[..|e| - 1], c);
    } else {
      assert p + e == p;
    }
  }

  /** splitext recovers a stem and extension put together, and every split
      with a non-empty extension arises that way. */
  lemma SplitExtOfJoin(stem: string, e: string)
    requires IsExtension(e) && HasBaseChar(stem)
    ensures SplitExt(stem + e) == (stem, e)
  {
    var p := stem + e;
    LastIndexAppend(stem, e[1..], '/');
    assert stem + e == (stem + [e[0]]) + e[1..];
    LastIndexAppend(stem + [e[0]], e[1..], '.');
    assert LastIndex(stem + [e[0]], '.') == |stem|;
    assert LastIndex(stem + [e[0]], '/') == LastIndex(stem, '/') by {
      assert (stem + [e[0]])[..|stem|] == stem;
    }
    var k :| LastIndex(stem, '/') < k < |stem| && stem[k] != '.';
    assert p[k] == stem[k];
    assert p[..|stem|] == stem;
  }

  function Ext(p: string): string { SplitExt(p).1 }

  function Stem(p: string): string { SplitExt(p).0 }

  /** The generation filter (`ext != ".wav"`, case-sensitive). */
  predicate IsWav(filename: string) { Ext(filename) == ".wav" }

  /** The modification filter (`ext != ".TextGrid"`, case-sensitive). */
  predicate IsTextGrid(filename: string) { Ext(filename) == ".TextGrid" }

  /** `name + ".TextGrid"`: the name of the TextGrid generated for a file. */
  function TextGridName(name: string): (r: string)
    ensures |r| == |name| + 9 && r[..|name|] == name && r[|name|..] == ".TextGrid"
  {
    name + ".TextGrid"
  }

  /** A file ends in ".wav" exactly when it is a stem with a base character
      followed by ".wav"; names such as ".wav", "a.WAV" or "a.wav.bak" are skipped. */
  lemma WavFilterExact(filename: string)
    ensures IsWav(filename) <==>
      exists stem :: filename == stem + ".wav" && HasBaseChar(stem)
  {
    if IsWav(filename) {
      assert filename == Stem(filename) + ".wav";
    }
    forall stem | filename == stem + ".wav" && HasBaseChar(stem)
      ensures IsWav(filename)
    {
      SplitExtOfJoin(stem, ".wav");
    }
  }

  /** The TextGrid written for an audio file "<name>.wav" is "<name>.TextGrid",
      which the modification filter accepts and which splits back to the same name. */
  lemma GeneratedNameIsTextGrid(filename: string)
    requires IsWav(filename)
    ensures SplitExt(TextGridName(Stem(filename))) == (Stem(filename), ".TextGrid")
    ensures IsTextGrid(TextGridName(Stem(filename)))
  {
    SplitExtOfJoin(Stem(filename), ".TextGrid");
  }

  /** Appending the suffix never merges two names. */
  lemma TextGridNameInjective(a: string, b: string)
    ensures TextGridName(a) == TextGridName(b) <==> a == b
  {
    if TextGridName(a) == TextGridName(b) {
      assert |a| == |b|;
      assert a == TextGridName(a)[..|a|];
    }
  }

  /** `s.replace(",", ".")`: every decimal comma becomes a point. */
  function ReplaceCommas(s: string): (r: string)
    ensures |r| == |s|
    ensures forall i :: 0 <= i < |s| ==> r[i] == (if s[i] == ',' then '.' else s[i])
  {
    if s == [] then [] else [if s[0] == ',' then '.' else s[0]] + ReplaceCommas(s[1..])
  }

  lemma ReplaceCommasNormalises(s: string)
    ensures ',' !in ReplaceCommas(s)
    ensures ReplaceCommas(ReplaceCommas(s)) == ReplaceCommas(s)
    ensures ',' !in s ==> ReplaceCommas(s) == s
  {
  }

  /** Python's `str.isspace` restricted to ASCII. */
  predicate IsSpace(c: char)
  {
    c == ' ' || c == '\t' || c == '\n' || c == '\r' ||
    c == '\U{000B}' || c == '\U{000C}' ||
    c == '\U{001C}' || c == '\U{001D}' || c == '\U{001E}' || c == '\U{001F}'
  }

  function LowerChar(c: char): char
  {
    if 'A' <= c <= 'Z' then (c as int - 'A' as int + 'a' as int) as char else c
  }

  /** `str.lower` restricted to ASCII letters. */
  function Lower(s: string): (r: string)
    ensures |r| == |s|
    ensures forall i :: 0 <= i < |s| ==> r[i] == LowerChar(s[i])
  {
    if s == [] then [] else [LowerChar(s[0])] + Lower(s[1..])
  }

  /** `str.lstrip()`: drops the leading whitespace. */
  function TrimStart(s: string): (r: string)
    ensures |r| <= |s| && r == s[|s| - |r|..]
    ensures forall j :: 0 <= j < |s| - |r| ==> IsSpace(s[j])
    ensures r != [] ==> !IsSpace(r[0])
  {
    s[LeadingSpaces(s, 0)..]
  }

  /** The end of the run of whitespace that starts at `i`. */
  function LeadingSpaces(s: string, i: nat): (k: nat)
    requires i <= |s|
    ensures i <= k <= |s|
    ensures forall j :: i <= j < k ==> IsSpace(s[j])
    ensures k < |s| ==> !IsSpace(s[k])
    decreases |s| - i
  {
    if i < |s| && IsSpace(s[i]) then LeadingSpaces(s, i + 1) else i
  }

  /** `str.rstrip()`: drops the trailing whitespace. */
  function TrimEnd(s: string): (r: string)
    ensures |r| <= |s| && r == s[..|r|]
    ensures forall j :: |r| <= j < |s| ==> IsSpace(s[j])
    ensures r != [] ==> !IsSpace(r[|r| - 1])
  {
    if s != [] && IsSpace(s[|s| - 1]) then TrimEnd(s[..|s| - 1]) else s
  }

  function Strip(s: string): string { TrimEnd(TrimStart(s)) }

  /** `input(...).lower().strip() == "y"`: whether a phase is enabled. */
  predicate PromptEnabled(answer: string)
  {
    Strip(Lower(answer)) == "y"
  }

  /** The answer is a single 'y' or 'Y' with only whitespace around it. */
  predicate SingleYes(answer: string)
  {
    exists i :: 0 <= i < |answer| && (answer[i] == 'y' || answer[i] == 'Y') &&
      forall j :: 0 <= j < |answer| && j != i ==> IsSpace(answer[j])
  }

  /** `t` is a single 'y' with only whitespace around it. */
  predicate LoneY(t: string)
  {
    exists i :: 0 <= i < |t| && t[i] == 'y' && forall j :: 0 <= j < |t| && j != i ==> IsSpace(t[j])
  }

  lemma LowerCharKeeps(c: char)
    ensures IsSpace(LowerChar(c)) <==> IsSpace(c)
    ensures LowerChar(c) == 'y' <==> c == 'y' || c == 'Y'
  {
  }

  lemma StripIsY(t: string)
    ensures Strip(t) == "y" <==> LoneY(t)
  {
    if Strip(t) == "y" {
      StripYIsLone(t);
    }
    if LoneY(t) {
      LoneIsStripY(t);
    }
  }

  lemma StripYIsLone(t: string)
    requires Strip(t) == "y"
    ensures LoneY(t)
  {
    var a := TrimStart(t);
    var k := |t| - |a|;
    assert a[0] == 'y';
    assert t[k] == 'y';
    forall j | 0 <= j < |t| && j != k ensures IsSpace(t[j]) {
      if j > k {
        assert t[j] == a[j - k];
      }
    }
  }

  lemma LoneIsStripY(t: string)
    requires LoneY(t)
    ensures Strip(t) == "y"
  {
    var i :| 0 <= i < |t| && t[i] == 'y' && (forall j :: 0 <= j < |t| && j != i ==> IsSpace(t[j]));
    StripAround(t, i);
  }

  /** Whitespace on both sides of the non-space character at `i` is what strip drops. */
  lemma StripAround(t: string, i: nat)
    requires i < |t| && !IsSpace(t[i])
    requires forall j :: 0 <= j < |t| && j != i ==> IsSpace(t[j])
    ensures Strip(t) == [t[i]]
  {
    TrimStartAt(t, i);
    var a := t[i..];
    forall j | 1 <= j < |a| ensures IsSpace(a[j]) {
      assert a[j] == t[i + j];
    }
    TrimEndToFirst(a);
    assert a[..1] == [t[i]];
  }

  /** Leading whitespace up to a non-space character at `i` is what lstrip drops. */
  lemma TrimStartAt(t: string, i: nat)
    requires i < |t| && !IsSpace(t[i])
    requires forall j :: 0 <= j < i ==> IsSpace(t[j])
    ensures TrimStart(t) == t[i..]
  {
    var k := LeadingSpaces(t, 0);
    assert !(k > i);
    assert !(k < i);
  }

  /** A non-space character followed only by whitespace is what rstrip keeps. */
  lemma {:induction false} TrimEndToFirst(a: string)
    requires |a| >= 1 && !IsSpace(a[0])
    requires forall j :: 1 <= j < |a| ==> IsSpace(a[j])
    ensures TrimEnd(a) == a[..1]
    decreases |a|
  {
    if |a| > 1 {
      TrimEndToFirst(a[..|a| - 1]);
      assert a[..|a| - 1][..1] == a[..1];
    }
  }

  lemma LoneYOfLower(answer: string)
    requires LoneY(Lower(answer))
    ensures SingleYes(answer)
  {
    var t := Lower(answer);
    var i :| 0 <= i < |t| && t[i] == 'y' && forall j :: 0 <= j < |t| && j != i ==> IsSpace(t[j]);
    LowerCharKeeps(answer[i]);
    forall j | 0 <= j < |answer| && j != i ensures IsSpace(answer[j]) {
      LowerCharKeeps(answer[j]);
    }
  }

  lemma LowerOfSingleYes(answer: string)
    requires SingleYes(answer)
    ensures LoneY(Lower(answer))
  {
    var t := Lower(answer);
    var i :| 0 <= i < |answer| && (answer[i] == 'y' || answer[i] == 'Y') &&
      forall j :: 0 <= j < |answer| && j != i ==> IsSpace(answer[j]);
    LowerCharKeeps(answer[i]);
    forall j | 0 <= j < |t| && j != i ensures IsSpace(t[j]) {
      LowerCharKeeps(answer[j]);
    }
  }

  lemma LowerKeepsLoneY(answer: string)
    ensures SingleYes(answer) <==> LoneY(Lower(answer))
  {
    if LoneY(Lower(answer)) {
      LoneYOfLower(answer);
    }
    if SingleYes(answer) {
      LowerOfSingleYes(answer);
    }
  }

  /** A phase runs exactly when the answer is a lone 'y' or 'Y' amid
      whitespace. */
  lemma {:induction false} PromptEnabledIff(answer: string)
    ensures PromptEnabled(answer) <==> SingleYes(answer)
  {
    StripIsY(Lower(answer));
    LowerKeepsLoneY(answer);
  }

  /** The empty answer disables a phase, despite the "[y]" hint. */
  lemma EmptyAnswerDisables()
    ensures !PromptEnabled("")
  {
  }

  /** So does "yes": only a lone y counts. */
  lemma YesDisables()
    ensures !PromptEnabled("yes")
  {
    PromptEnabledIff("yes");
    assert "yes"[0] == 'y' && "yes"[1] == 'e' && "yes"[2] == 's';
  }

  /** An upper-case Y amid whitespace enables a phase. */
  lemma SpacedYEnables()
    ensures PromptEnabled(" Y\n")
  {
    PromptEnabledIff(" Y\n");
    var a := " Y\n";
    assert a[1] == 'Y' && IsSpace(a[0]) && IsSpace(a[2]);
    assert forall j :: 0 <= j < |a| && j != 1 ==> IsSpace(a[j]);
  }
}
