/** Reading the engine's one-line reply. */
module EngineReply {
  import opened Base
  import opened Text
  import opened Triage

  datatype Reply = Clean | Infected(signature: string) | Error(message: string)

  function StripEnd(s: string, c: char): (r: string)
    ensures r == [] || r[|r| - 1] != c
  {
    if s != [] && s[|s| - 1] == c then StripEnd(s[..|s| - 1], c) else s
  }

  /** `rsplit_once(": ")`: what follows the last occurrence. */
  function AfterLastColon(s: string): Option<string> {
    if |s| < 2 then None
    else if s[|s| - 2] == ':' && s[|s| - 1] == ' ' then Some([])
    else
      match AfterLastColon(s[..|s| - 1])
      case None => None
      case Some(tail) => Some(tail + [s[|s| - 1]])
  }

  function StartsWith(s: string, prefix: string): bool {
    prefix <= s
  }

  /** The verdict part, once the path is cut off. */
  function Judge(tail: string): Reply {
    var verdict := Trim(tail);
    if verdict == "OK" then Clean
    else if EndsWith(verdict, " FOUND") then Infected(Trim(verdict[..|verdict| - 6]))
    else if StartsWith(verdict, "ERROR") then Error(Trim(StripLead(Trim(verdict[5..]), ':')))
    else Error(verdict)
  }

  function ParseReply(line: string): Reply {
    var text := StripEnd(Trim(line), '\0');
    match AfterLastColon(text)
    case None => Error(text)
    case Some(tail) => Judge(tail)
  }

  // ------------------------------------------------------------------
  // What the engine meant is what is read

  /** The engine ends a reply with a newline or a NUL. */
  predicate Terminator(t: string) {
    t == "" || t == "\n" || t == "\0"
  }

  /** A reply line: the path, the verdict, the terminator. */
  function Line(place: string, verdict: string, end: string): string {
    place + (": " + verdict + end)
  }

  lemma {:induction false} TrimStartOf(a: string, b: string)
    requires b != "" && !IsSpace(b[0])
    ensures TrimStart(a + b) == TrimStart(a) + b
  {
    if a == "" {
      assert a + b == b;
    } else if IsSpace(a[0]) {
      TrimStartOf(a[1..], b);
      assert (a + b)[1..] == a[1..] + b;
    } else {
      assert (a + b)[0] == a[0];
    }
  }

  /** Trimming and stripping take the terminator off and nothing else. */
  lemma EndStripped(all: string, end: string)
    requires Terminator(end) && all != "" && !IsSpace(all[|all| - 1]) && all[|all| - 1] != '\0'
    ensures StripEnd(TrimEnd(all + end), '\0') == all
  {
    assert TrimEnd(all) == all && StripEnd(all, '\0') == all;
    if end == "" {
      assert all + end == all;
    } else {
      assert (all + end)[..|all|] == all && (all + end)[|all|] == end[0];
    }
  }

  lemma TextOfLine(place: string, verdict: string, end: string)
    requires Terminator(end) && verdict != "" && !IsSpace(verdict[|verdict| - 1]) && verdict[|verdict| - 1] != '\0'
    ensures StripEnd(Trim(Line(place, verdict, end)), '\0') == TrimStart(place) + ": " + verdict
  {
    hide TrimStart, TrimEnd, StripEnd;
    TrimStartOf(place, ": " + verdict + end);
    var all := TrimStart(place) + ": " + verdict;
    assert TrimStart(place) + (": " + verdict + end) == all + end;
    EndStripped(all, end);
  }

  lemma AfterSnoc(s: string, c: char)
    requires s != ""
    ensures AfterLastColon(s + [c]) ==
            if c == ' ' && s[|s| - 1] == ':' then Some("")
            else match AfterLastColon(s) case None => None case Some(tail) => Some(tail + [c])
  {
    var t := s + [c];
    assert t[|t| - 2] == s[|s| - 1] && t[..|t| - 1] == s;
  }

  /** What follows the last ": ", or the whole text if there is none. */
  function LastPart(s: string): string {
    match AfterLastColon(s)
    case None => s
    case Some(tail) => tail
  }

  /** Behind a ": ", only what follows it decides where the last one is. */
  lemma {:induction false} ColonFound(head: string, tail: string)
    ensures AfterLastColon(head + ": " + tail) == Some(LastPart(tail))
  {
    hide AfterLastColon;
    if tail == "" {
      AfterSnoc(head + ":", ' ');
      assert head + ": " + tail == (head + ":") + [' '];
      assert AfterLastColon("") == None by { ShortHasNone(""); }
    } else {
      var n := |tail| - 1;
      var init := tail[..n];
      var rest := head + ": " + init;
      ColonFound(head, init);
      AfterSnoc(rest, tail[n]);
      assert tail == init + [tail[n]];
      assert head + ": " + tail == rest + [tail[n]];
      assert rest[|rest| - 1] == if n > 0 then tail[n - 1] else ' ';
      if n > 0 {
        AfterSnoc(init, tail[n]);
      } else {
        ShortHasNone(tail);
        ShortHasNone(init);
      }
    }
  }

  lemma ShortHasNone(s: string)
    requires |s| < 2
    ensures AfterLastColon(s) == None
  {
  }

  /** Whatever the path contains, the verdict alone is judged: by its part after its own last ": ". */
  lemma JudgedPart(place: string, verdict: string, end: string)
    requires Terminator(end) && verdict != "" && !IsSpace(verdict[|verdict| - 1]) && verdict[|verdict| - 1] != '\0'
    ensures ParseReply(Line(place, verdict, end)) == Judge(LastPart(verdict))
  {
    hide StripEnd, Trim, AfterLastColon;
    TextOfLine(place, verdict, end);
    ColonFound(TrimStart(place), verdict);
  }

  // ------------------------------------------------------------------
  // Clean replies

  /** A reply is read as clean if and only if its verdict, from its last ": " on, says OK. */
  lemma CleanIff(place: string, verdict: string, end: string)
    requires Terminator(end) && verdict != "" && !IsSpace(verdict[|verdict| - 1]) && verdict[|verdict| - 1] != '\0'
    ensures ParseReply(Line(place, verdict, end)) == Clean <==> Trim(LastPart(verdict)) == "OK"
  {
    hide Trim, LastPart, ParseReply;
    JudgedPart(place, verdict, end);
  }

  /** The last part of a text that does not end in a blank ends as the text does. */
  lemma {:induction false} LastPartEnds(s: string)
    requires s != "" && s[|s| - 1] != ' '
    ensures LastPart(s) != "" && LastPart(s)[|LastPart(s)| - 1] == s[|s| - 1]
  {
    var init := s[..|s| - 1];
    assert s == init + [s[|s| - 1]];
    if init != "" {
      AfterSnoc(init, s[|s| - 1]);
    }
  }

  lemma TrimKeepsEnd(s: string)
    requires s != "" && !IsSpace(s[|s| - 1])
    ensures Trim(s) != "" && Trim(s)[|Trim(s)| - 1] == s[|s| - 1]
  {
    var init := s[..|s| - 1];
    TrimStartOf(init, [s[|s| - 1]]);
    assert s == init + [s[|s| - 1]];
  }

  /** So a verdict that does not end in the letter K is never read as clean: no finding is, and no error
      in the form that ends in the word ERROR. */
  lemma CleanOnlyIfOk(place: string, verdict: string, end: string)
    requires Terminator(end) && verdict != "" && !IsSpace(verdict[|verdict| - 1]) && verdict[|verdict| - 1] != '\0'
    ensures ParseReply(Line(place, verdict, end)) == Clean ==> verdict[|verdict| - 1] == 'K'
  {
    hide StripEnd, Trim, AfterLastColon;
    CleanIff(place, verdict, end);
    LastPartEnds(verdict);
    TrimKeepsEnd(LastPart(verdict));
  }

  /** An error in the form that begins with the word ERROR is read as clean when its message ends in ": OK". */
  lemma ErrorReadAsClean(place: string, message: string, end: string)
    requires Terminator(end)
    ensures ParseReply(Line(place, "ERROR: " + message + ": OK", end)) == Clean
  {
    hide ParseReply, AfterLastColon;
    var verdict := "ERROR: " + message + ": OK";
    assert verdict[|verdict| - 1] == 'K';
    CleanIff(place, verdict, end);
    ColonFound("ERROR: " + message, "OK");
    assert verdict == "ERROR: " + message + ": " + "OK";
    assert AfterLastColon("OK") == None by { NoColonNoBreak("OK"); BreakIff("OK"); }
    TrimTrims("OK");
  }

  // ------------------------------------------------------------------
  // Findings

  /** ": " occurs somewhere inside. */
  predicate HasBreak(s: string) {
    exists i :: 0 <= i < |s| - 1 && s[i] == ':' && s[i + 1] == ' '
  }

  lemma NoColonNoBreak(s: string)
    requires ':' !in s
    ensures !HasBreak(s)
  {
  }

  lemma {:induction false} BreakIff(s: string)
    ensures AfterLastColon(s).Some? <==> HasBreak(s)
    ensures AfterLastColon(s).Some? ==> |AfterLastColon(s).value| < |s|
  {
    if |s| >= 2 {
      var n := |s| - 1;
      BreakIff(s[..n]);
      if i :| 0 <= i < n - 1 && s[..n][i] == ':' && s[..n][i + 1] == ' ' {
        assert s[i] == ':' && s[i + 1] == ' ';
      }
      if i :| 0 <= i < n && s[i] == ':' && s[i + 1] == ' ' {
        assert i < n - 1 ==> s[..n][i] == ':' && s[..n][i + 1] == ' ';
      }
    }
  }

  /** Where the last ": " of a finding lies: in the signature, or between it and the word FOUND. */
  lemma FoundPart(signature: string)
    requires signature != ""
    ensures LastPart(signature + " FOUND") ==
            if signature[|signature| - 1] == ':' then "FOUND" else LastPart(signature) + " FOUND"
  {
    hide AfterLastColon;
    var s := signature;
    AfterSnoc(s, ' ');
    AfterSnoc(s + " ", 'F');
    AfterSnoc(s + " F", 'O');
    AfterSnoc(s + " FO", 'U');
    AfterSnoc(s + " FOU", 'N');
    AfterSnoc(s + " FOUN", 'D');
    assert s + " F" == s + " " + ['F'] && s + " FO" == s + " F" + ['O'] && s + " FOU" == s + " FO" + ['U'];
    assert s + " FOUN" == s + " FOU" + ['N'] && s + " FOUND" == s + " FOUN" + ['D'];
  }

  lemma JudgeFound(part: string)
    requires part != "" && !IsSpace(part[|part| - 1])
    ensures Judge(part + " FOUND") == Infected(Trim(part))
  {
    hide TrimStart, TrimEnd;
    var init, last := part[..|part| - 1], [part[|part| - 1]];
    assert part == init + last;
    TrimStartOf(init, last);
    TrimStartOf(init, last + " FOUND");
    var core := TrimStart(init) + last;
    assert part + " FOUND" == init + (last + " FOUND") && core + " FOUND" == TrimStart(init) + (last + " FOUND");
    assert TrimStart(part) == core && TrimStart(part + " FOUND") == core + " FOUND";
    EndTrimmed(core + " FOUND");
    EndTrimmed(core);
    var verdict := core + " FOUND";
    assert verdict[|verdict| - 6..] == " FOUND" && verdict[..|verdict| - 6] == core;
    assert verdict[|verdict| - 1] == 'D';
    TrimTwice(part);
  }

  lemma EndTrimmed(s: string)
    requires s != "" && !IsSpace(s[|s| - 1])
    ensures TrimEnd(s) == s
  {
  }

  /** How a finding is read, whatever the path contains: as an engine error if the signature ends in a colon,
      else as a finding of the part of the signature behind its last ": ". */
  lemma FindingRead(place: string, signature: string, end: string)
    requires Terminator(end) && signature != "" && Trimmed(signature)
    ensures ParseReply(Line(place, signature + " FOUND", end)) ==
            if signature[|signature| - 1] == ':' then Error("FOUND") else Infected(Trim(LastPart(signature)))
  {
    hide ParseReply, Trim, LastPart;
    var verdict := signature + " FOUND";
    assert verdict[|verdict| - 1] == 'D';
    JudgedPart(place, verdict, end);
    FoundPart(signature);
    if signature[|signature| - 1] == ':' {
      TrimTrims("FOUND");
    } else {
      LastPartEnds(signature);
      JudgeFound(LastPart(signature));
    }
  }

  /** A finding is read as one if and only if the signature does not end in a colon. */
  lemma FindingKeptIff(place: string, signature: string, end: string)
    requires Terminator(end) && signature != "" && Trimmed(signature)
    ensures ParseReply(Line(place, signature + " FOUND", end)).Infected? <==> signature[|signature| - 1] != ':'
  {
    hide ParseReply, Trim, LastPart;
    FindingRead(place, signature, end);
  }

  /** And the signature comes back as it was sent if and only if, besides, it has no ": " inside. */
  lemma SignatureKeptIff(place: string, signature: string, end: string)
    requires Terminator(end) && signature != "" && Trimmed(signature)
    ensures ParseReply(Line(place, signature + " FOUND", end)) == Infected(signature) <==>
            signature[|signature| - 1] != ':' && !HasBreak(signature)
  {
    hide ParseReply, Trim, AfterLastColon, HasBreak;
    FindingRead(place, signature, end);
    BreakIff(signature);
    TrimShortens(LastPart(signature));
    TrimTrims(signature);
  }

  lemma TrimShortens(s: string)
    ensures |Trim(s)| <= |s|
  {
  }

  /** Both directions at once for the replies the engine sends in ordinary operation: a clean file is read
      as clean, and a signature that has no colon before a blank or at its end comes out as it went in. */
  lemma ReplyRoundTrip(place: string, signature: string, end: string)
    requires Terminator(end) && signature != "" && Trimmed(signature)
    requires signature[|signature| - 1] != ':' && !HasBreak(signature)
    ensures ParseReply(Line(place, signature + " FOUND", end)) == Infected(signature)
    ensures ParseReply(Line(place, "OK", end)) == Clean
  {
    hide ParseReply, Trim, AfterLastColon;
    SignatureKeptIff(place, signature, end);
    CleanIff(place, "OK", end);
    NoColonNoBreak("OK");
    BreakIff("OK");
    TrimTrims("OK");
  }

  /** A colon at the end of a signature turns the finding into an engine error, for every such signature. */
  lemma TrailingColonLosesFinding(place: string, signature: string, end: string)
    requires Terminator(end) && Trimmed(signature + ":")
    ensures ParseReply(Line(place, signature + ":" + " FOUND", end)) == Error("FOUND")
  {
    hide ParseReply, Trim, LastPart;
    FindingRead(place, signature + ":", end);
  }

  /** An error whose message follows the word ERROR, after a colon or a blank, comes out as that message:
      for every message that neither begins with a colon nor has ": " inside. */
  lemma ErrorMessageKept(place: string, message: string, end: string)
    requires Terminator(end) && message != "" && Trimmed(message) && message[|message| - 1] != '\0'
    requires message[0] != ':' && !HasBreak(message) && !EndsWith("ERROR " + message, " FOUND")
    ensures ParseReply(Line(place, "ERROR " + message, end)) == Error(message)
  {
    hide ParseReply, AfterLastColon, Trim, HasBreak, EndsWith;
    var verdict := "ERROR " + message;
    assert verdict[|verdict| - 1] == message[|message| - 1];
    JudgedPart(place, verdict, end);
    NoBreakBefore("ERROR ", message);
    BreakIff(verdict);
    assert Trimmed(verdict) && verdict[0] == 'E';
    TrimTrims(verdict);
    assert verdict[5..] == " " + message && verdict[..5] == "ERROR";
    TrimBlank(message);
    TrimTrims(message);
    assert StripLead(message, ':') == message;
  }

  lemma TrimBlank(message: string)
    requires message != "" && Trimmed(message)
    ensures Trim(" " + message) == message
  {
    assert (" " + message)[1..] == message && TrimStart(message) == message;
  }

  lemma NoBreakBefore(head: string, message: string)
    requires ':' !in head && !HasBreak(message) && message != "" && message[0] != ':'
    ensures !HasBreak(head + message)
  {
    var all, n := head + message, |head|;
    forall i | 0 <= i < |all| - 1
      ensures !(all[i] == ':' && all[i + 1] == ' ')
    {
      assert if i < n then all[i] == head[i] else all[i] == message[i - n] && all[i + 1] == message[i - n + 1];
    }
  }

  /** A verdict in no known form is an error with the whole verdict as its message: in particular the engine's
      own "... ERROR". */
  lemma TrailingErrorKept(place: string, message: string, end: string)
    requires Terminator(end) && message != "" && Trimmed(message) && !HasBreak(message + " ERROR")
    requires !("ERROR" <= message)
    ensures ParseReply(Line(place, message + " ERROR", end)) == Error(message + " ERROR")
  {
    hide ParseReply, AfterLastColon, Trim, HasBreak;
    var verdict := message + " ERROR";
    assert verdict[|verdict| - 1] == 'R' && verdict[0] == message[0];
    JudgedPart(place, verdict, end);
    BreakIff(verdict);
    TrimTrims(verdict);
    NotErrorFirst(message);
  }

  lemma NotErrorFirst(message: string)
    requires message != "" && Trimmed(message) && !("ERROR" <= message)
    ensures !("ERROR" <= message + " ERROR")
  {
    var verdict := message + " ERROR";
    if |message| < 5 {
      assert verdict[|message|] == ' ' && "ERROR"[|message|] != ' ';
    } else {
      assert verdict[..5] == message[..5];
    }
  }

  /** A line without ": " is an error with the line itself as its message. */
  lemma NoVerdictIsError(text: string)
    requires Trimmed(text) && (text == "" || text[|text| - 1] != '\0') && !HasBreak(text)
    ensures ParseReply(text) == Error(text)
  {
    hide AfterLastColon, Trim, HasBreak;
    TrimTrims(text);
    BreakIff(text);
    assert StripEnd(text, '\0') == text;
  }
}
