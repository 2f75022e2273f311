/** Scan exclusions: path prefixes compared component by component, and extension patterns. */
module Exclusions {
  import opened Base
  import opened Text

  /** An entry after tilde expansion. A relative one can only arise without a home directory. */
  datatype Prefix = Absolute(path: Path) | Relative(path: Path)

  datatype Rules = Rules(prefixes: seq<Prefix>, extensions: seq<string>, gatePrefixes: seq<Prefix>)

  predicate Covers(prefix: Prefix, path: Path) {
    prefix.Absolute? && prefix.path <= path
  }

  predicate AnyCovers(prefixes: seq<Prefix>, path: Path) {
    exists i :: 0 <= i < |prefixes| && Covers(prefixes[i], path)
  }

  function LastDot(name: string): (r: Option<nat>)
    ensures r.Some? ==> r.value < |name| && name[r.value] == '.'
    ensures r.Some? ==> forall i :: r.value < i < |name| ==> name[i] != '.'
    ensures r.None? ==> '.' !in name
  {
    if name == [] then None
    else if name[|name| - 1] == '.' then Some(|name| - 1)
    else LastDot(name[..|name| - 1])
  }

  /** What follows the last dot of the file name; a leading dot alone does not count. */
  function Extension(path: Path): Option<string> {
    if path == [] || path[|path| - 1] == ".." then None
    else
      var name := path[|path| - 1];
      match LastDot(name)
      case None => None
      case Some(i) => if i == 0 then None else Some(name[i + 1..])
  }

  predicate ExtensionExcluded(rules: Rules, path: Path) {
    match Extension(path)
    case None => false
    case Some(ext) => Lower(ext) in rules.extensions
  }

  predicate IsExcluded(rules: Rules, path: Path) {
    if AnyCovers(rules.prefixes, path) then true
    else if rules.extensions == [] then false
    else ExtensionExcluded(rules, path)
  }

  predicate IsGateExcluded(rules: Rules, path: Path) {
    AnyCovers(rules.gatePrefixes, path)
  }

  /** Excluding a directory by prefix excludes everything under it and nothing beside it:
      siblings whose names merely begin alike are not covered. */
  lemma PrefixClosed(rules: Rules, path: Path, below: Path)
    ensures AnyCovers(rules.prefixes, path) ==> IsExcluded(rules, path + below)
    ensures IsGateExcluded(rules, path) ==> IsGateExcluded(rules, path + below)
  {
    if AnyCovers(rules.prefixes, path) {
      var i :| 0 <= i < |rules.prefixes| && Covers(rules.prefixes[i], path);
      assert Covers(rules.prefixes[i], path + below);
    }
    if IsGateExcluded(rules, path) {
      var i :| 0 <= i < |rules.gatePrefixes| && Covers(rules.gatePrefixes[i], path);
      assert Covers(rules.gatePrefixes[i], path + below);
    }
  }

  lemma PrefixIsComponentwise(parent: Path, name: string, other: string, below: Path)
    ensures Covers(Absolute(parent + [name]), parent + [other] + below) <==> name == other
  {
    assert (parent + [other] + below)[|parent|] == other;
    assert (parent + [name])[|parent|] == name;
    assert parent + [other] + below == (parent + [other]) + below;
  }

  /** A path is excluded exactly when an absolute prefix covers it or its lower-cased extension is listed. */
  lemma ExcludedIff(rules: Rules, path: Path)
    ensures IsExcluded(rules, path) <==>
              || (exists i :: 0 <= i < |rules.prefixes|
                              && rules.prefixes[i].Absolute? && rules.prefixes[i].path <= path)
              || (Extension(path).Some? && Lower(Extension(path).value) in rules.extensions)
  {
    hide Extension;
    if i :| 0 <= i < |rules.prefixes| && rules.prefixes[i].Absolute? && rules.prefixes[i].path <= path {
      assert Covers(rules.prefixes[i], path);
    }
  }

  /** The extension is what follows the last dot of the name, provided something precedes that dot. */
  lemma ExtensionIff(dir: Path, name: string, ext: string)
    ensures Extension(dir + [name]) == Some(ext) <==>
              name != ".." && '.' !in ext && exists stem :: stem != "" && name == stem + "." + ext
  {
    var path := dir + [name];
    assert path[|path| - 1] == name;
    if Extension(path) == Some(ext) {
      ExtensionHasNoDot(path);
      var k := LastDot(name).value;
      assert name == name[..k] + "." + ext && name[..k] != "";
    }
    if name != ".." && '.' !in ext {
      if stem :| stem != "" && name == stem + "." + ext {
        assert name[|stem|] == '.' && name[|stem| + 1..] == ext;
        assert forall i :: |stem| < i < |name| ==> name[i] == ext[i - |stem| - 1];
        assert LastDot(name) == Some(|stem|);
      }
    }
  }

  lemma ExtensionHasNoDot(path: Path)
    requires Extension(path).Some?
    ensures '.' !in Extension(path).value
  {
    var name := path[|path| - 1];
    var k := LastDot(name).value;
    var ext := Extension(path).value;
    assert forall j :: 0 <= j < |ext| ==> ext[j] == name[k + 1 + j];
  }

  /** A name a directory entry can have. */
  predicate FileName(name: string) {
    ValidComponent(name) && name != ".." && '\0' !in name
  }

  ghost predicate Nameable(path: Path) {
    forall i :: 0 <= i < |path| ==> FileName(path[i])
  }

  /** What an extension entry must look like to match anything. */
  predicate Matchable(entry: string) {
    '.' !in entry && '/' !in entry && '\0' !in entry && Lower(entry) == entry
  }

  lemma MatchedEntryShape(entry: string, path: Path)
    requires Nameable(path) && ExtensionExcluded(Rules([], [entry], []), path)
    ensures Matchable(entry)
  {
    var ext := Extension(path).value;
    var name := path[|path| - 1];
    ExtensionHasNoDot(path);
    LowerTwice(ext);
    assert entry == Lower(ext) && FileName(name);
    assert forall i :: 0 <= i < |ext| ==> ext[i] in name && ext[i] != '.' && Lower(ext)[i] == LowerChar(ext[i]);
  }

  lemma DottedName(entry: string)
    requires '.' !in entry
    ensures Extension(["a." + entry]) == Some(entry)
  {
    var name := "a." + entry;
    assert name[1] == '.' && forall i :: 2 <= i < |name| ==> name[i] == entry[i - 2];
    assert LastDot(name) == Some(1);
    assert name[2..] == entry && name[0] == 'a';
  }

  /** An extension entry excludes some nameable path if and only if it holds neither a dot nor a slash,
      a NUL or an upper-case letter: a pattern like *.tar.gz never matches. */
  lemma EntryMatchesIff(entry: string)
    ensures (exists path :: Nameable(path) && ExtensionExcluded(Rules([], [entry], []), path)) <==> Matchable(entry)
  {
    hide Extension;
    if path :| Nameable(path) && ExtensionExcluded(Rules([], [entry], []), path) {
      MatchedEntryShape(entry, path);
    }
    if Matchable(entry) {
      DottedName(entry);
      assert FileName("a." + entry) && ("a." + entry)[0] == 'a';
      assert Nameable(["a." + entry]) && ExtensionExcluded(Rules([], [entry], []), ["a." + entry]);
    }
  }

  // ------------------------------------------------------------------
  // From the settings

  /** `expand_tilde`, with the home directory as a parameter. */
  function Expand(s: string, home: Option<Path>): Prefix {
    if s == "~" && home.Some? then Absolute(home.value)
    else if |s| >= 2 && s[..2] == "~/" && home.Some? then
      (if |s| > 2 && s[2] == '/' then Absolute(Components(s[2..])) else Absolute(home.value + Components(s[2..])))
    else if s != [] && s[0] == '/' then Absolute(Components(s))
    else Relative(Components(s))
  }

  function Prefixes(texts: seq<string>, home: Option<Path>): seq<Prefix> {
    if texts == [] then []
    else
      var text := Trim(texts[0]);
      (if text == "" then [] else [Expand(text, home)]) + Prefixes(texts[1..], home)
  }

  function Patterns(texts: seq<string>): seq<string> {
    if texts == [] then []
    else
      var text := Trim(texts[0]);
      (if |text| >= 2 && text[..2] == "*." then [Lower(text[2..])] else []) + Patterns(texts[1..])
  }

  function FromSettings(paths: seq<string>, extensions: seq<string>, gatePaths: seq<string>, home: Option<Path>):
    Rules
  {
    Rules(Prefixes(paths, home), Patterns(extensions), Prefixes(gatePaths, home))
  }

  /** A list of path entries covers what one of its entries covers, trimmed; blank entries cover nothing. */
  lemma {:induction false} PrefixesIff(texts: seq<string>, home: Option<Path>, path: Path)
    ensures AnyCovers(Prefixes(texts, home), path) <==>
              exists i :: 0 <= i < |texts| && Trim(texts[i]) != "" && Covers(Expand(Trim(texts[i]), home), path)
  {
    hide Trim, Expand, Covers;
    if texts != [] {
      var text, rest := Trim(texts[0]), texts[1..];
      PrefixesIff(rest, home, path);
      var head := if text == "" then [] else [Expand(text, home)];
      ConcatCovers(head, Prefixes(rest, home), path);
      if text != "" { OneCovers(Expand(text, home), path); }
      assert forall i :: 0 <= i < |rest| ==> rest[i] == texts[i + 1];
      if i :| 0 <= i < |texts| && Trim(texts[i]) != "" && Covers(Expand(Trim(texts[i]), home), path) {
        assert i > 0 ==> rest[i - 1] == texts[i];
      }
    }
  }

  lemma ConcatCovers(a: seq<Prefix>, b: seq<Prefix>, path: Path)
    ensures AnyCovers(a + b, path) <==> AnyCovers(a, path) || AnyCovers(b, path)
  {
    var all := a + b;
    if i :| 0 <= i < |all| && Covers(all[i], path) {
      assert if i < |a| then Covers(a[i], path) else Covers(b[i - |a|], path);
    }
    if i :| 0 <= i < |a| && Covers(a[i], path) {
      assert Covers(all[i], path);
    }
    if i :| 0 <= i < |b| && Covers(b[i], path) {
      assert Covers(all[i + |a|], path);
    }
  }

  /** An extension is listed exactly when an entry reads `*.` and then that extension, in any letter case. */
  lemma {:induction false} PatternsIff(texts: seq<string>, ext: string)
    ensures ext in Patterns(texts) <==>
              exists i :: 0 <= i < |texts| && "*." <= Trim(texts[i]) && ext == Lower(Trim(texts[i])[2..])
  {
    hide Trim, Lower;
    if texts != [] {
      var rest := texts[1..];
      PatternsIff(rest, ext);
      assert forall i :: 0 <= i < |rest| ==> rest[i] == texts[i + 1];
      if i :| 0 <= i < |texts| && "*." <= Trim(texts[i]) && ext == Lower(Trim(texts[i])[2..]) {
        assert i > 0 ==> rest[i - 1] == texts[i];
      }
    }
  }

  lemma ExpandRooted(text: string, home: Option<Path>)
    requires text != "" && text[0] == '/'
    ensures Expand(text, home) == Absolute(Components(text))
  {
    hide Components;
    assert |text| >= 2 ==> text[..2][0] == '/';
  }

  lemma ExpandRendered(entry: Path, home: Option<Path>)
    requires entry != [] && forall i :: 0 <= i < |entry| ==> ValidComponent(entry[i])
    ensures Render(entry) != "" && Expand(Render(entry), home) == Absolute(entry)
  {
    hide Components, Expand;
    ComponentsOfRendered(entry);
    assert Render(entry)[0] == '/';
    ExpandRooted(Render(entry), home);
  }

  /** A settings entry that spells a path out excludes that path and what lies under it, and nothing else. */
  lemma EntryCoversExactly(entry: Path, home: Option<Path>, path: Path)
    requires entry != [] && Trimmed(Render(entry))
    requires forall i :: 0 <= i < |entry| ==> ValidComponent(entry[i])
    ensures AnyCovers(FromSettings([Render(entry)], [], [], home).prefixes, path) <==> entry <= path
  {
    hide Trim, Trimmed, Expand, Render, Prefixes, Patterns, AnyCovers;
    ExpandRendered(entry, home);
    TrimTrims(Render(entry));
    OnePrefix(Render(entry), home);
    OneCovers(Absolute(entry), path);
  }

  lemma ExpandHome(tail: string, home: Option<Path>)
    requires tail == "" || tail[0] != '/'
    ensures Expand("~/" + tail, home) ==
            if home.Some? then Absolute(home.value + Components(tail)) else Relative(Components("~/" + tail))
  {
    hide Components;
    var text := "~/" + tail;
    assert text[0] == '~' && text[1] == '/' && text[..2] == "~/" && text[2..] == tail;
    assert |text| > 2 ==> text[2] == tail[0];
  }

  /** An entry "~" or "~/..." stands for the home directory or what it spells out below it; without a home
      directory it covers nothing. */
  lemma TildeCovers(rest: Path, home: Option<Path>, path: Path)
    requires forall i :: 0 <= i < |rest| ==> ValidComponent(rest[i])
    ensures Covers(Expand("~" + Render(rest), home), path) <==> home.Some? && home.value + rest <= path
  {
    hide Components, Expand;
    if rest == [] {
      HomeAlone(home);
      assert "~" + Render(rest) == "~";
      assert home.Some? ==> home.value + rest == home.value;
    } else {
      hide Render;
      var tail := RenderedTail(rest);
      assert "~" + ("/" + tail) == "~/" + tail;
      ExpandHome(tail, home);
    }
  }

  lemma RenderedTail(path: Path) returns (tail: string)
    requires path != [] && forall i :: 0 <= i < |path| ==> ValidComponent(path[i])
    ensures Render(path) == "/" + tail && tail != "" && tail[0] != '/' && Components(tail) == path
  {
    hide Components;
    tail := path[0] + Render(path[1..]);
    assert ValidComponent(path[0]) && tail[0] == path[0][0];
    ComponentsOfRendered(path);
    RootDropped(tail);
  }

  lemma HomeAlone(home: Option<Path>)
    ensures Expand("~", home) == if home.Some? then Absolute(home.value) else Relative(Components("~"))
  {
    hide Components;
  }

  lemma RootDropped(text: string)
    ensures Components("/" + text) == Components(text)
  {
    assert "" + "/" + text == "/" + text;
    ComponentsJoin("", text);
    OneComponent("");
  }

  /** An entry of the gate list keeps its subtree from the exec gate and from nothing else. */
  lemma GateEntryCoversExactly(entry: Path, home: Option<Path>, path: Path)
    requires entry != [] && Trimmed(Render(entry))
    requires forall i :: 0 <= i < |entry| ==> ValidComponent(entry[i])
    ensures var rules := FromSettings([], [], [Render(entry)], home);
            (IsGateExcluded(rules, path) <==> entry <= path) && !IsExcluded(rules, path)
  {
    hide Trim, Trimmed, Expand, Render, AnyCovers, Prefixes;
    ExpandRendered(entry, home);
    TrimTrims(Render(entry));
    OnePrefix(Render(entry), home);
    OneCovers(Absolute(entry), path);
    assert !AnyCovers(Prefixes([], home), path) by { PrefixesIff([], home, path); }
  }

  lemma OneCovers(prefix: Prefix, path: Path)
    ensures AnyCovers([prefix], path) <==> Covers(prefix, path)
  {
    assert Covers([prefix][0], path) <==> Covers(prefix, path);
  }

  lemma OnePrefix(text: string, home: Option<Path>)
    requires text != "" && Trim(text) == text
    ensures Prefixes([text], home) == [Expand(text, home)]
  {
    hide Trim, Expand;
    assert Prefixes([text][1..], home) == [];
  }

  class ExclusionList {
    var rules: Rules

    constructor (rules: Rules)
      ensures this.rules == rules
    {
      this.rules := rules;
    }

    /** The daemon's own structural skips, on top of the user's. */
    method AddPrefix(path: Path)
      modifies this
      ensures forall p :: IsExcluded(rules, p) <==> IsExcluded(old(rules), p) || path <= p
      ensures forall p :: IsGateExcluded(rules, p) <==> IsGateExcluded(old(rules), p)
    {
      if Absolute(path) !in rules.prefixes {
        rules := rules.(prefixes := rules.prefixes + [Absolute(path)]);
      }
      forall p
        ensures AnyCovers(rules.prefixes, p) <==> AnyCovers(old(rules).prefixes, p) || path <= p
      {
        var i :| 0 <= i < |rules.prefixes| && rules.prefixes[i] == Absolute(path);
        assert path <= p ==> Covers(rules.prefixes[i], p);
        if j :| 0 <= j < |old(rules).prefixes| && Covers(old(rules).prefixes[j], p) {
          assert Covers(rules.prefixes[j], p);
        }
      }
    }
  }
}
