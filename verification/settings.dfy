/** Normalising a whole settings document before it is saved and applied. */
module SettingsNorm {
  import opened Base
  import opened Text
  import opened Exclusions

  /** What one raw entry becomes. */
  datatype Clean = Skip | Reject | Keep(text: string)

  function CleanPath(raw: string): Clean {
    var path := Trim(raw);
    if path == "" then Skip
    else if path[0] == '/' || (|path| >= 2 && path[..2] == "~/") then Keep(path)
    else Reject
  }

  /** A path entry is kept, trimmed, when it begins at the root or in the home directory; blank ones are
      dropped, all others refused. */
  lemma CleanPathIff(raw: string)
    ensures CleanPath(raw) == Skip <==> Trim(raw) == ""
    ensures forall text :: CleanPath(raw) == Keep(text) <==>
              text == Trim(raw) && exists rest :: text == "/" + rest || text == "~/" + rest
  {
    hide Trim;
    var text := Trim(raw);
    if text != "" && text[0] == '/' {
      assert text == "/" + text[1..];
    }
    if |text| >= 2 && text[..2] == "~/" {
      assert text == "~/" + text[2..];
    }
  }

  function BareExtension(raw: string): string {
    Lower(StripLead(StripLead(Trim(raw), '*'), '.'))
  }

  function CleanExtension(raw: string): Clean {
    var ext := BareExtension(raw);
    if ext == "" then Skip else if '/' in ext then Reject else Keep("*." + ext)
  }

  lemma {:induction false} StripLeadMeans(s: string, c: char) returns (n: nat)
    ensures s == Repeated(c, n) + StripLead(s, c)
  {
    n := 0;
    if s != [] && s[0] == c {
      var m := StripLeadMeans(s[1..], c);
      n := m + 1;
      assert s == [c] + s[1..] && Repeated(c, n) == [c] + Repeated(c, m);
    } else {
      assert s == Repeated(c, 0) + s;
    }
  }

  function Repeated(c: char, n: nat): string {
    seq(n, _ => c)
  }

  /** An extension entry is read as the lower-cased text behind its stars and dots: blank ones are dropped, those
      with a slash refused, all others kept in the form `*.ext`. */
  lemma CleanExtensionIff(raw: string) returns (stars: nat, dots: nat, ext: string)
    ensures Trim(raw) == Repeated('*', stars) + Repeated('.', dots) + ext
    ensures ext == "" || (ext[0] != '.' && (dots > 0 || ext[0] != '*'))
    ensures CleanExtension(raw) ==
            if ext == "" then Skip else if '/' in ext then Reject else Keep("*." + Lower(ext))
  {
    hide Trim, StripLead, Repeated;
    stars := StripLeadMeans(Trim(raw), '*');
    var rest := StripLead(Trim(raw), '*');
    dots := StripLeadMeans(rest, '.');
    ext := StripLead(rest, '.');
    NoDotsNothing(rest, dots, ext);
    SlashStays(ext);
  }

  lemma NoDotsNothing(rest: string, dots: nat, ext: string)
    requires rest == Repeated('.', dots) + ext && (rest == "" || rest[0] != '*')
    ensures ext == "" || dots > 0 || ext[0] != '*'
  {
    if dots == 0 {
      assert rest == ext;
    }
  }

  lemma SlashStays(s: string)
    ensures '/' in Lower(s) <==> '/' in s
    ensures Lower(s) == "" <==> s == ""
  {
    if '/' in s {
      var i :| 0 <= i < |s| && s[i] == '/';
      assert Lower(s)[i] == '/';
    }
  }

  datatype List = Paths | Extensions

  function CleanEntry(list: List, raw: string): Clean {
    if list == Paths then CleanPath(raw) else CleanExtension(raw)
  }

  /** One list, entry by entry: drop blanks, refuse bad shapes, keep the first of equals. */
  function Normalized(list: List, raws: seq<string>): Option<seq<string>> {
    if raws == [] then Some([])
    else
      match Normalized(list, raws[..|raws| - 1])
      case None => None
      case Some(kept) =>
        match CleanEntry(list, raws[|raws| - 1])
        case Skip => Some(kept)
        case Reject => None
        case Keep(text) => Some(if text in kept then kept else kept + [text])
  }

  /** Refused if and only if some entry has a bad shape. */
  lemma {:induction false} NormalizedFailsIff(list: List, raws: seq<string>)
    ensures Normalized(list, raws) == None <==>
            exists i :: 0 <= i < |raws| && CleanEntry(list, raws[i]) == Reject
  {
    hide CleanEntry;
    if raws != [] {
      var init := raws[..|raws| - 1];
      NormalizedFailsIff(list, init);
      assert forall i :: 0 <= i < |init| ==> init[i] == raws[i];
    }
  }

  /** Entry i is the first that gives this text. */
  ghost predicate IsFirst(list: List, raws: seq<string>, i: nat, text: string) {
    && i < |raws| && CleanEntry(list, raws[i]) == Keep(text)
    && forall j :: 0 <= j < i ==> CleanEntry(list, raws[j]) != Keep(text)
  }

  ghost predicate Increasing(from: seq<nat>) {
    forall k, l :: 0 <= k < l < |from| ==> from[k] < from[l]
  }

  ghost predicate NoneMissing(list: List, raws: seq<string>, kept: seq<string>) {
    forall i :: 0 <= i < |raws| && CleanEntry(list, raws[i]).Keep? ==> CleanEntry(list, raws[i]).text in kept
  }

  /** Where each kept entry comes from: increasing positions, each the first to give its text,
      and every entry that is kept at all gives a text of the result. */
  ghost predicate FirstOccurrences(list: List, raws: seq<string>, kept: seq<string>, from: seq<nat>) {
    && |from| == |kept| && Increasing(from)
    && (forall k :: 0 <= k < |from| ==> IsFirst(list, raws, from[k], kept[k]))
    && NoneMissing(list, raws, kept)
  }

  lemma IsFirstExtends(list: List, raws: seq<string>, n: nat, i: nat, text: string)
    requires n <= |raws| && IsFirst(list, raws[..n], i, text)
    ensures IsFirst(list, raws, i, text)
  {
    assert forall j :: 0 <= j < n ==> raws[..n][j] == raws[j];
  }

  lemma OneMore(list: List, raws: seq<string>, n: nat, kept: seq<string>)
    requires |raws| == n + 1 && NoneMissing(list, raws[..n], kept)
    ensures var c := CleanEntry(list, raws[n]);
            if c.Keep? && c.text !in kept
            then IsFirst(list, raws, n, c.text) && NoneMissing(list, raws, kept + [c.text])
            else NoneMissing(list, raws, kept)
  {
    hide CleanEntry;
    assert forall i :: 0 <= i < n ==> raws[..n][i] == raws[i];
  }

  lemma {:induction false} NormalizedKeepsFirst(list: List, raws: seq<string>) returns (from: seq<nat>)
    requires Normalized(list, raws).Some?
    ensures FirstOccurrences(list, raws, Normalized(list, raws).value, from)
    ensures Distinct(Normalized(list, raws).value)
  {
    hide CleanEntry;
    if raws == [] {
      from := [];
    } else {
      var n := |raws| - 1;
      var init := raws[..n];
      from := NormalizedKeepsFirst(list, init);
      var kept := Normalized(list, init).value;
      forall k | 0 <= k < |from|
        ensures IsFirst(list, raws, from[k], kept[k])
      {
        IsFirstExtends(list, raws, n, from[k], kept[k]);
      }
      assert NoneMissing(list, raws[..n], kept);
      OneMore(list, raws, n, kept);
      var c := CleanEntry(list, raws[n]);
      if c.Keep? && c.text !in kept {
        from := from + [n];
        DistinctAppend(kept, c.text);
      }
    }
  }

  lemma CleanAgain(list: List, raw: string)
    ensures CleanEntry(list, raw).Keep? ==> CleanEntry(list, CleanEntry(list, raw).text) == CleanEntry(list, raw)
  {
    if CleanEntry(list, raw).Keep? {
      if list == Paths {
        TrimTrims(raw);
      } else {
        CleanExtensionAgain(raw);
      }
    }
  }

  /** A bare extension as normalisation produces it. */
  predicate BareShape(ext: string) {
    ext != "" && ext[0] != '.' && Lower(ext) == ext && !IsSpace(ext[|ext| - 1])
  }

  lemma BareExtensionShape(raw: string)
    ensures BareExtension(raw) == "" || BareShape(BareExtension(raw))
  {
    var trimmed := Trim(raw);
    assert Trimmed(trimmed) by { TrimTrims(raw); }
    hide Trim, StripLead, Lower;
    var stripped := StripLead(StripLead(trimmed, '*'), '.');
    LowerTwice(stripped);
    assert forall i :: 0 <= i < |stripped| ==> Lower(stripped)[i] == LowerChar(stripped[i]);
  }

  lemma BareOfPattern(ext: string)
    requires BareShape(ext)
    ensures Trim("*." + ext) == "*." + ext && BareExtension("*." + ext) == ext
  {
    var text := "*." + ext;
    assert text[0] == '*' && text[|text| - 1] == ext[|ext| - 1];
    assert Trim(text) == text by { TrimTrims(text); }
    hide Trim, Lower;
    assert text[1..] == "." + ext;
    assert StripLead(text, '*') == "." + ext by { assert StripLead(text[1..], '*') == text[1..]; }
    assert ("." + ext)[1..] == ext;
    assert StripLead("." + ext, '.') == ext;
  }

  lemma CleanExtensionAgain(raw: string)
    requires CleanExtension(raw).Keep?
    ensures CleanExtension(CleanExtension(raw).text) == CleanExtension(raw)
  {
    hide BareExtension, Trim, Lower;
    BareExtensionShape(raw);
    BareOfPattern(BareExtension(raw));
  }

  /** Normalising twice changes nothing more. */
  lemma {:induction false} NormalizedIdempotent(list: List, raws: seq<string>)
    requires Normalized(list, raws).Some?
    ensures Normalized(list, Normalized(list, raws).value) == Normalized(list, raws)
  {
    hide CleanEntry;
    if raws != [] {
      var init := raws[..|raws| - 1];
      NormalizedIdempotent(list, init);
      var kept := Normalized(list, init).value;
      var c := CleanEntry(list, raws[|raws| - 1]);
      if c.Keep? && c.text !in kept {
        CleanAgain(list, raws[|raws| - 1]);
        assert (kept + [c.text])[..|kept|] == kept;
      }
    }
  }

  // ------------------------------------------------------------------
  // The whole document

  datatype Outcome = Accepted | InvalidParams

  predicate PercentOk(percent: real) {
    0.0 < percent <= 5.0
  }

  /** The whole document is refused if and only if one of its lists or the percentage breaks its rule. */
  ghost predicate Acceptable(paths: seq<string>, extensions: seq<string>, gatePaths: seq<string>, percent: real) {
    Normalized(Paths, paths).Some? && Normalized(Extensions, extensions).Some?
    && Normalized(Paths, gatePaths).Some? && PercentOk(percent)
  }

  class Settings {
    var paths: seq<string>
    var extensions: seq<string>
    var gatePaths: seq<string>
    var cacheAutoPercent: real

    /** `normalize_settings`: on success the three lists are normalised in place. */
    method Normalize() returns (r: Outcome)
      modifies this
      ensures r == Accepted <==> Acceptable(old(paths), old(extensions), old(gatePaths), old(cacheAutoPercent))
      ensures r == Accepted ==>
                && Normalized(Paths, old(paths)) == Some(paths)
                && Normalized(Extensions, old(extensions)) == Some(extensions)
                && Normalized(Paths, old(gatePaths)) == Some(gatePaths)
      ensures cacheAutoPercent == old(cacheAutoPercent)
      // Percentages above 0 and up to 5, both ends as said, and nothing else.
      ensures cacheAutoPercent <= 0.0 || cacheAutoPercent > 5.0 ==> r == InvalidParams
      ensures r == InvalidParams && 0.0 < cacheAutoPercent <= 5.0 ==>
                || Normalized(Paths, old(paths)) == None || Normalized(Extensions, old(extensions)) == None
                || Normalized(Paths, old(gatePaths)) == None
      // A list that is refused has been emptied; the lists after it have not been touched.
      ensures Normalized(Paths, old(paths)) == None ==>
                paths == [] && extensions == old(extensions) && gatePaths == old(gatePaths)
    {
      var raws := paths;
      paths := [];
      var okPaths, newPaths := NormalizeList(Paths, raws);
      if !okPaths {
        return InvalidParams;
      }
      paths := newPaths;
      raws, extensions := extensions, [];
      var okExtensions, newExtensions := NormalizeList(Extensions, raws);
      if !okExtensions {
        return InvalidParams;
      }
      extensions := newExtensions;
      raws, gatePaths := gatePaths, [];
      var okGate, newGate := NormalizeList(Paths, raws);
      if !okGate {
        return InvalidParams;
      }
      gatePaths := newGate;
      if cacheAutoPercent <= 0.0 || cacheAutoPercent > 5.0 {
        return InvalidParams;
      }
      return Accepted;
    }
  }

  /** One pass over a list with a seen-set; stops at the first entry of a bad shape. */
  method NormalizeList(list: List, raws: seq<string>) returns (ok: bool, kept: seq<string>)
    ensures ok <==> Normalized(list, raws).Some?
    ensures ok ==> Normalized(list, raws) == Some(kept)
  {
    hide CleanEntry;
    var seen: set<string> := {};
    kept := [];
    var i := 0;
    while i < |raws|
      invariant 0 <= i <= |raws|
      invariant Normalized(list, raws[..i]) == Some(kept)
      invariant forall t :: t in seen <==> t in kept
    {
      assert raws[..i + 1][..i] == raws[..i];
      match CleanEntry(list, raws[i]) {
        case Skip =>
        case Reject =>
          RejectedPrefix(list, raws, i);
          return false, [];
        case Keep(text) =>
          if text !in seen {
            seen := seen + {text};
            kept := kept + [text];
          }
      }
      i := i + 1;
    }
    assert raws[..i] == raws;
    return true, kept;
  }

  lemma RejectedPrefix(list: List, raws: seq<string>, i: nat)
    requires i < |raws| && CleanEntry(list, raws[i]) == Reject
    ensures Normalized(list, raws) == None
  {
    NormalizedFailsIff(list, raws);
  }

  // ------------------------------------------------------------------
  // What a normalised extension list means to the matcher

  lemma {:induction false} PatternsOfNormalized(extensions: seq<string>, bare: string)
    requires forall i :: 0 <= i < |extensions| ==> CleanExtension(extensions[i]) == Keep(extensions[i])
    ensures bare in Patterns(extensions) <==> "*." + bare in extensions
  {
    hide CleanExtension, Trim, Lower;
    if extensions != [] {
      PatternsOfNormalized(extensions[1..], bare);
      var e := extensions[0];
      PatternOfNormalized(e);
      assert extensions == [e] + extensions[1..];
      if "*." + bare == e {
        assert e[2..] == bare;
      }
    }
  }

  lemma PatternOfNormalized(e: string)
    requires CleanExtension(e) == Keep(e)
    ensures Trim(e) == e && |e| >= 2 && e[..2] == "*." && Lower(e[2..]) == e[2..] && e == "*." + e[2..]
  {
    hide BareExtension, Trim;
    var ext := BareExtension(e);
    BareExtensionShape(e);
    BareOfPattern(ext);
    assert e == "*." + ext && e[2..] == ext && e[..2] == "*.";
  }

  /** After normalisation, a path is excluded by extension exactly when the pattern for its
      lower-cased extension is in the list. */
  lemma ExtensionMeaning(raws: seq<string>, path: Path, home: Option<Path>)
    requires Normalized(Extensions, raws).Some?
    ensures var list := Normalized(Extensions, raws).value;
            ExtensionExcluded(FromSettings([], list, [], home), path) <==>
            Extension(path).Some? && "*." + Lower(Extension(path).value) in list
  {
    var list := Normalized(Extensions, raws).value;
    var from := NormalizedKeepsFirst(Extensions, raws);
    forall i | 0 <= i < |list|
      ensures CleanExtension(list[i]) == Keep(list[i])
    {
      CleanAgain(Extensions, raws[from[i]]);
    }
    if Extension(path).Some? {
      PatternsOfNormalized(list, Lower(Extension(path).value));
    }
  }
}
