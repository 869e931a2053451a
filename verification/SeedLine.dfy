/** worldregen/worldregen.go, blankSeedLine's text editing, and idlewatch/minecraft_adapter.go,
    readForgeMotd, which reads the same file. A char stands for one byte. */
module SeedLine {
  import opened Wrappers

  // ----- strings.Split and strings.Join on newlines -----

  function Lines(s: string): (ls: seq<string>)
    ensures |ls| > 0
  {
    if s == [] then [[]]
    else if s[0] == '\n' then [[]] + Lines(s[1..])
    else var ls := Lines(s[1..]); [[s[0]] + ls[0]] + ls[1..]
  }

  function Join(ls: seq<string>): string
    requires |ls| > 0
  {
    if |ls| == 1 then ls[0] else ls[0] + ['\n'] + Join(ls[1..])
  }

  predicate OneLine(line: string) {
    '\n' !in line
  }

  predicate AllOneLine(ls: seq<string>) {
    forall i :: 0 <= i < |ls| ==> OneLine(ls[i])
  }

  lemma JoinOf(first: string, rest: seq<string>)
    ensures Join([first] + rest) == if rest == [] then first else first + ['\n'] + Join(rest)
  {
    assert ([first] + rest)[1..] == rest;
  }

  lemma JoinFirst(c: char, first: string, rest: seq<string>)
    ensures Join([[c] + first] + rest) == [c] + Join([first] + rest)
  {
    JoinOf(first, rest);
    JoinOf([c] + first, rest);
    if rest != [] {
      CharInFront(c, first, Join(rest));
    }
  }

  lemma OneLineFirst(first: string, rest: seq<string>)
    requires OneLine(first) && AllOneLine(rest)
    ensures AllOneLine([first] + rest)
  {
  }

  lemma StillOneLine(c: char, line: string)
    requires c != '\n' && OneLine(line)
    ensures OneLine([c] + line)
  {
  }

  lemma CharInFront(c: char, line: string, rest: string)
    ensures ([c] + line) + ['\n'] + rest == [c] + (line + ['\n'] + rest)
  {
  }

  lemma {:induction false} JoinLines(s: string)
    ensures Join(Lines(s)) == s && AllOneLine(Lines(s))
  {
    if s != [] {
      JoinLines(s[1..]);
      var ls := Lines(s[1..]);
      assert s == [s[0]] + s[1..] && ls == [ls[0]] + ls[1..];
      if s[0] == '\n' {
        JoinOf([], ls);
        OneLineFirst([], ls);
      } else {
        JoinFirst(s[0], ls[0], ls[1..]);
        StillOneLine(s[0], ls[0]);
        OneLineFirst([s[0]] + ls[0], ls[1..]);
      }
    }
  }

  lemma {:induction false} LinesOfOne(line: string)
    requires OneLine(line)
    ensures Lines(line) == [line]
  {
    if line != [] {
      assert line[0] in line && [line[0]] + line[1..] == line;
      LinesOfOne(line[1..]);
    }
  }

  lemma {:induction false} LinesOfFirst(line: string, rest: string)
    requires OneLine(line)
    ensures Lines(line + ['\n'] + rest) == [line] + Lines(rest)
  {
    var s := line + ['\n'] + rest;
    if line == [] {
      assert s[1..] == rest;
    } else {
      assert s[0] == line[0] && s[1..] == line[1..] + ['\n'] + rest;
      LinesOfFirst(line[1..], rest);
      var ls := [line[1..]] + Lines(rest);
      assert ls[1..] == Lines(rest) && [line[0]] + ls[0] == line;
    }
  }

  lemma {:induction false} LinesJoin(ls: seq<string>)
    requires |ls| > 0 && AllOneLine(ls)
    ensures Lines(Join(ls)) == ls
  {
    if |ls| == 1 {
      LinesOfOne(ls[0]);
    } else {
      LinesJoin(ls[1..]);
      LinesOfFirst(ls[0], Join(ls[1..]));
    }
  }

  // ----- Blanking -----

  /** strings.TrimRight(line, "\r"): every trailing CR. */
  function TrimCRs(line: string): (t: string)
    ensures t <= line && forall i :: |t| <= i < |line| ==> line[i] == '\r'
  {
    if line != [] && line[|line| - 1] == '\r' then TrimCRs(line[..|line| - 1]) else line
  }

  predicate EndsInCR(line: string) {
    line != [] && line[|line| - 1] == '\r'
  }

  function BlankLine(line: string, prefix: string): string {
    if prefix <= TrimCRs(line) then prefix + if EndsInCR(line) then ['\r'] else [] else line
  }

  function BlankLines(ls: seq<string>, prefix: string): (r: seq<string>)
    ensures |r| == |ls| && forall i :: 0 <= i < |ls| ==> r[i] == BlankLine(ls[i], prefix)
  {
    seq(|ls|, i requires 0 <= i < |ls| => BlankLine(ls[i], prefix))
  }

  function Blanked(text: string, seedKey: string): string {
    Join(BlankLines(Lines(text), seedKey + ['=']))
  }

  method BlankText(text: string, seedKey: string) returns (blanked: string)
    ensures blanked == Blanked(text, seedKey)
  {
    var prefix := seedKey + ['='];
    var split := Lines(text);
    var lines := new string[|split|](i requires 0 <= i < |split| => split[i]);
    for i := 0 to lines.Length
      invariant forall j :: 0 <= j < i ==> lines[j] == BlankLine(split[j], prefix)
      invariant forall j :: i <= j < |split| ==> lines[j] == split[j]
    {
      var line := lines[i];
      var trimmed := TrimCRs(line);
      if prefix <= trimmed {
        var trailing := [];
        if EndsInCR(line) {
          trailing := ['\r'];
        }
        lines[i] := prefix + trailing;
      }
    }
    assert lines[..] == BlankLines(split, prefix);
    blanked := Join(lines[..]);
  }

  /** A line is rewritten exactly when it starts with the key and the equals sign: trimming CRs hides no match. */
  lemma MatchesUntrimmed(line: string, seedKey: string)
    ensures seedKey + ['='] <= TrimCRs(line) <==> seedKey + ['='] <= line
  {
    var prefix := seedKey + ['='];
    if prefix <= line {
      assert line[|prefix| - 1] == prefix[|prefix| - 1] == '=';
      assert |TrimCRs(line)| >= |prefix|;
    }
  }

  lemma BlankLineStaysOneLine(line: string, prefix: string)
    requires OneLine(line)
    ensures OneLine(BlankLine(line, prefix))
  {
    if prefix <= TrimCRs(line) {
      assert forall i :: 0 <= i < |prefix| ==> prefix[i] == line[i];
    }
  }

  lemma LinesOfBlanked(text: string, seedKey: string)
    ensures Lines(Blanked(text, seedKey)) == BlankLines(Lines(text), seedKey + ['='])
  {
    JoinLines(text);
    var ls, prefix := Lines(text), seedKey + ['='];
    forall i | 0 <= i < |ls|
      ensures OneLine(BlankLine(ls[i], prefix))
    {
      BlankLineStaysOneLine(ls[i], prefix);
    }
    LinesJoin(BlankLines(ls, prefix));
  }

  /** Same number of lines; each line that does not start with the key is kept to the byte, and each
      that does keeps only the key, the equals sign and its CR, if it ended in one. */
  lemma BlankingIsLineByLine(text: string, seedKey: string)
    ensures var before, after := Lines(text), Lines(Blanked(text, seedKey));
            && |after| == |before|
            && forall i :: 0 <= i < |before| ==>
                 if seedKey + ['='] <= before[i]
                 then after[i] == seedKey + ['='] + if before[i][|before[i]| - 1] == '\r' then ['\r'] else []
                 else after[i] == before[i]
  {
    LinesOfBlanked(text, seedKey);
    var before := Lines(text);
    forall i | 0 <= i < |before|
      ensures seedKey + ['='] <= TrimCRs(before[i]) <==> seedKey + ['='] <= before[i]
    {
      MatchesUntrimmed(before[i], seedKey);
    }
  }

  lemma BlankLineTwice(line: string, seedKey: string)
    ensures BlankLine(BlankLine(line, seedKey + ['=']), seedKey + ['=']) == BlankLine(line, seedKey + ['='])
  {
    var prefix := seedKey + ['='];
    MatchesUntrimmed(line, seedKey);
    MatchesUntrimmed(BlankLine(line, prefix), seedKey);
    assert prefix[|prefix| - 1] == '=';
  }

  lemma BlankingIsIdempotent(text: string, seedKey: string)
    ensures Blanked(Blanked(text, seedKey), seedKey) == Blanked(text, seedKey)
  {
    LinesOfBlanked(text, seedKey);
    var ls, prefix := Lines(text), seedKey + ['='];
    forall i | 0 <= i < |ls|
      ensures BlankLines(BlankLines(ls, prefix), prefix)[i] == BlankLines(ls, prefix)[i]
    {
      BlankLineTwice(ls[i], seedKey);
    }
    assert BlankLines(BlankLines(ls, prefix), prefix) == BlankLines(ls, prefix);
  }

  lemma BlankLineNotLonger(line: string, seedKey: string)
    ensures |BlankLine(line, seedKey + ['='])| <= |line|
  {
    MatchesUntrimmed(line, seedKey);
    var prefix := seedKey + ['='];
    if prefix <= line && EndsInCR(line) {
      assert line[|prefix| - 1] == prefix[|prefix| - 1] == '=';
    }
  }

  lemma {:induction false} JoinNotLonger(ls: seq<string>, seedKey: string)
    requires |ls| > 0
    ensures |Join(BlankLines(ls, seedKey + ['=']))| <= |Join(ls)|
  {
    BlankLineNotLonger(ls[0], seedKey);
    if |ls| > 1 {
      assert BlankLines(ls, seedKey + ['='])[1..] == BlankLines(ls[1..], seedKey + ['=']);
      JoinNotLonger(ls[1..], seedKey);
    }
  }

  /** Blanking never makes a text longer. */
  lemma BlankingShortens(text: string, seedKey: string)
    ensures |Blanked(text, seedKey)| <= |text|
  {
    JoinLines(text);
    JoinNotLonger(Lines(text), seedKey);
  }

  // ----- Looking another key up -----

  const MAX_TOKEN := 65_536 // bufio.Scanner's limit

  /** The scanner gives up on a line this long. */
  predicate TooLong(line: string) {
    |line| >= MAX_TOKEN
  }

  /** bufio.ScanLines drops one CR at the end. */
  function ScannedLine(line: string): string {
    if EndsInCR(line) then line[..|line| - 1] else line
  }

  /** The value on the first line that starts with the key, unless a line too long comes before it. */
  function Lookup(ls: seq<string>, key: string): Option<string> {
    if ls == [] || TooLong(ls[0]) then None
    else if key + ['='] <= ScannedLine(ls[0]) then Some(ScannedLine(ls[0])[|key| + 1..])
    else Lookup(ls[1..], key)
  }

  /** readForgeMotd on the file's text (None when it cannot be opened); unescape decodes \uXXXX. */
  function Motd(text: Option<string>, fallback: string, unescape: string -> string): string {
    if text.None? then fallback else
    var value := Lookup(Lines(text.value), "motd");
    if value.None? || unescape(value.value) == [] then fallback else unescape(value.value)
  }

  method ReadForgeMotd(text: Option<string>, fallback: string, unescape: string -> string) returns (motd: string)
    ensures motd == Motd(text, fallback, unescape)
  {
    if text.None? {
      return fallback;
    }
    var lines := Lines(text.value);
    var i := 0;
    while i < |lines| && !TooLong(lines[i])
      invariant 0 <= i <= |lines| && Lookup(lines[i..], "motd") == Lookup(lines, "motd")
    {
      var line := ScannedLine(lines[i]);
      if "motd=" <= line {
        assert "motd" + ['='] == "motd=";
        var value := unescape(line[|"motd="|..]);
        if value == [] {
          return fallback;
        }
        return value;
      }
      assert "motd" + ['='] == "motd=" && lines[i..][1..] == lines[i + 1..];
      i := i + 1;
    }
    return fallback;
  }

  // ----- What the file says of the message of the day -----

  /** No line of these starts with motd=, and none exceeds what the scanner takes. */
  predicate NoMotd(ls: seq<string>) {
    forall i :: 0 <= i < |ls| ==> |ls[i]| < 65_536 && !("motd=" <= ls[i])
  }

  lemma {:induction false} CRHidesNoMotd(line: string)
    ensures "motd=" <= ScannedLine(line) <==> "motd=" <= line
  {
    if "motd=" <= line && EndsInCR(line) {
      assert line[4] == "motd="[4] == '=';
      assert |line| > 5;
    }
  }

  lemma {:induction false} MotdBehind(ls: seq<string>, n: nat)
    requires n <= |ls| && NoMotd(ls[..n])
    ensures Lookup(ls, "motd") == Lookup(ls[n..], "motd")
  {
    assert "motd" + ['='] == "motd=";
    if n > 0 {
      assert ls[0] == ls[..n][0];
      CRHidesNoMotd(ls[0]);
      assert ls[1..][..n - 1] == ls[..n][1..] && ls[1..][n - 1..] == ls[n..];
      MotdBehind(ls[1..], n - 1);
    } else {
      assert ls[0..] == ls;
    }
  }

  /** The first line that starts with motd= says it, with or without a CR at the end; said to be nothing, it falls
      back. */
  lemma {:induction false} MotdOfFirstLine(text: string, n: nat, value: string, fallback: string,
                                           unescape: string -> string)
    requires n < |Lines(text)| && NoMotd(Lines(text)[..n]) && |Lines(text)[n]| < 65_536
    requires value == [] || value[|value| - 1] != '\r'
    requires Lines(text)[n] == "motd=" + value || Lines(text)[n] == "motd=" + value + "\r"
    ensures Motd(Some(text), fallback, unescape) == if unescape(value) == "" then fallback else unescape(value)
  {
    var line := Lines(text)[n];
    MotdBehind(Lines(text), n);
    assert Lines(text)[n..][0] == line && "motd" + ['='] == "motd=";
    assert ScannedLine(line) == "motd=" + value;
    assert ("motd=" + value)[5..] == value;
  }

  /** Without such a line, or behind a line too long for the scanner, or without the file, it is the fallback. */
  lemma {:induction false} MotdFallsBack(text: string, n: nat, fallback: string, unescape: string -> string)
    requires n <= |Lines(text)| && NoMotd(Lines(text)[..n]) && (n < |Lines(text)| ==> |Lines(text)[n]| >= 65_536)
    ensures Motd(Some(text), fallback, unescape) == fallback == Motd(None, fallback, unescape)
  {
    MotdBehind(Lines(text), n);
  }

  // ----- Looking another key up, before and after -----

  predicate IsSeed(line: string, seedKey: string) {
    seedKey + ['='] <= line
  }

  /** A seed line within the scanner's limit once its value is gone. */
  predicate ShortWhenBlank(line: string, seedKey: string) {
    |seedKey| + 1 + (if EndsInCR(line) then 1 else 0) < MAX_TOKEN
  }

  /** The key stands on some line, with nothing but seed lines in the scanner's way that blanking shortens. */
  predicate Reachable(ls: seq<string>, seedKey: string, key: string) {
    if ls == [] then false
    else if IsSeed(ls[0], seedKey) then ShortWhenBlank(ls[0], seedKey) && Reachable(ls[1..], seedKey, key)
    else !TooLong(ls[0]) && (key + ['='] <= ScannedLine(ls[0]) || Reachable(ls[1..], seedKey, key))
  }

  /** The first overlong line is a seed line, before any line with the key, and the key is reachable behind it. */
  predicate HiddenBehindLongSeed(ls: seq<string>, seedKey: string, key: string) {
    if ls == [] then false
    else if TooLong(ls[0]) then IsSeed(ls[0], seedKey) && Reachable(ls, seedKey, key)
    else !(key + ['='] <= ScannedLine(ls[0])) && HiddenBehindLongSeed(ls[1..], seedKey, key)
  }

  lemma BlankLineAndOtherKey(line: string, seedKey: string, key: string)
    requires '=' !in seedKey && '=' !in key && key != seedKey
    ensures var blanked := BlankLine(line, seedKey + ['=']);
            && (seedKey + ['='] <= line ==>
                  !(key + ['='] <= ScannedLine(line)) && !(key + ['='] <= ScannedLine(blanked)))
            && (!(seedKey + ['='] <= line) ==> blanked == line)
            && |blanked| <= |line|
  {
    MatchesUntrimmed(line, seedKey);
    if seedKey + ['='] <= line {
      var blanked := BlankLine(line, seedKey + ['=']);
      NotTheOtherKey(line, seedKey, key);
      NotTheOtherKey(blanked, seedKey, key);
      assert line[|seedKey|] == '=';
      assert EndsInCR(line) ==> |line| > |seedKey + ['=']|;
    }
  }

  lemma NotTheOtherKey(line: string, seedKey: string, key: string)
    requires '=' !in seedKey && '=' !in key && key != seedKey && seedKey + ['='] <= line
    ensures !(key + ['='] <= ScannedLine(line))
  {
    if key + ['='] <= line {
      OneKeyPerLine(line, seedKey, key);
    }
  }

  function BeforeEquals(line: string): nat {
    if line == [] || line[0] == '=' then 0 else 1 + BeforeEquals(line[1..])
  }

  lemma {:induction false} KeyEndsAtFirstEquals(line: string, key: string)
    requires '=' !in key && key + ['='] <= line
    ensures BeforeEquals(line) == |key|
  {
    assert line[|key|] == (key + ['='])[|key|] == '=';
    if key != [] {
      assert line[0] == (key + ['='])[0] == key[0];
      assert (key + ['='])[1..] == key[1..] + ['='];
      KeyEndsAtFirstEquals(line[1..], key[1..]);
    }
  }

  /** Two '='-free keys that start one line are the same key. */
  lemma OneKeyPerLine(line: string, a: string, b: string)
    requires '=' !in a && '=' !in b && a + ['='] <= line && b + ['='] <= line
    ensures a == b
  {
    KeyEndsAtFirstEquals(line, a);
    KeyEndsAtFirstEquals(line, b);
    assert a == line[..|a|] && b == line[..|b|];
  }

  lemma BlankSeedLength(line: string, seedKey: string)
    requires IsSeed(line, seedKey)
    ensures TooLong(BlankLine(line, seedKey + ['='])) <==> !ShortWhenBlank(line, seedKey)
  {
    MatchesUntrimmed(line, seedKey);
  }

  /** After blanking the key is found exactly when it was reachable. */
  lemma {:induction false} FoundWhenReachable(ls: seq<string>, seedKey: string, key: string)
    requires '=' !in seedKey && '=' !in key && key != seedKey
    ensures Lookup(BlankLines(ls, seedKey + ['=']), key) != None <==> Reachable(ls, seedKey, key)
  {
    if ls != [] {
      BlankLineAndOtherKey(ls[0], seedKey, key);
      assert BlankLines(ls, seedKey + ['='])[1..] == BlankLines(ls[1..], seedKey + ['=']);
      FoundWhenReachable(ls[1..], seedKey, key);
      if IsSeed(ls[0], seedKey) {
        BlankSeedLength(ls[0], seedKey);
      }
    }
  }

  /** Looking another key up gives the same answer as before exactly when no overlong seed line hid it. */
  lemma {:induction false} OtherKeyKept(ls: seq<string>, seedKey: string, key: string)
    requires '=' !in seedKey && '=' !in key && key != seedKey
    ensures Lookup(BlankLines(ls, seedKey + ['=']), key) == Lookup(ls, key) <==> !HiddenBehindLongSeed(ls, seedKey, key)
  {
    if ls != [] {
      BlankLineAndOtherKey(ls[0], seedKey, key);
      if TooLong(ls[0]) {
        FoundWhenReachable(ls, seedKey, key);
      } else {
        assert BlankLines(ls, seedKey + ['='])[1..] == BlankLines(ls[1..], seedKey + ['=']);
        OtherKeyKept(ls[1..], seedKey, key);
      }
    }
  }

  /** It can happen: a motd line behind a seed line of 65536 bytes is found only after blanking. */
  lemma LongSeedHidesMotd(filler: string, value: string)
    requires |filler| == MAX_TOKEN && !EndsInCR(value) && |value| < MAX_TOKEN - 5
    ensures var ls := ["level-seed=" + filler, "motd=" + value];
            && Lookup(ls, "motd") == None
            && Lookup(BlankLines(ls, "level-seed="), "motd") == Some(value)
  {
    var seed, motd := "level-seed=" + filler, "motd=" + value;
    var ls := [seed, motd];
    assert "motd" + ['='] == "motd=" && "level-seed" + ['='] == "level-seed=" <= seed;
    MatchesUntrimmed(seed, "level-seed");
    var blanked := BlankLines(ls, "level-seed=");
    var line := BlankLine(seed, "level-seed=");
    assert line[0] == 'l' && ScannedLine(line)[0] == 'l' && motd[0] == 'm';
    assert blanked[0] == line && blanked[1] == motd && blanked[1..] == [motd];
    assert !EndsInCR(motd) && motd[5..] == value;
  }

  /** The message of the day survives blanking whenever no seed line exceeds the scanner's limit. */
  lemma MotdSurvivesBlanking(text: string, seedKey: string, fallback: string, unescape: string -> string)
    requires '=' !in seedKey && seedKey != "motd"
    requires forall i :: 0 <= i < |Lines(text)| && seedKey + ['='] <= Lines(text)[i] ==> !TooLong(Lines(text)[i])
    ensures Motd(Some(Blanked(text, seedKey)), fallback, unescape) == Motd(Some(text), fallback, unescape)
  {
    LinesOfBlanked(text, seedKey);
    OtherKeyKept(Lines(text), seedKey, "motd");
    NoLongSeed(Lines(text), seedKey, "motd");
  }

  lemma {:induction false} NoLongSeed(ls: seq<string>, seedKey: string, key: string)
    requires forall i :: 0 <= i < |ls| && seedKey + ['='] <= ls[i] ==> !TooLong(ls[i])
    ensures !HiddenBehindLongSeed(ls, seedKey, key)
  {
    if ls != [] {
      NoLongSeed(ls[1..], seedKey, key);
    }
  }
}
