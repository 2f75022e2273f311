/** Which lane a path is queued in: decided from its name, its place and its mode alone. */
module Triage {
  import opened Base
  import opened Text
  import opened Exclusions
  import opened ScanQueues

  predicate EndsWith(s: string, suffix: string) {
    |suffix| <= |s| && s[|s| - |suffix|..] == suffix
  }

  predicate Contains(s: string, part: string) {
    |part| <= |s| && (s[..|part|] == part || (s != [] && Contains(s[1..], part)))
  }

  predicate HasBit(mask: nat, bit: nat)
    requires bit > 0
  {
    mask / bit % 2 == 1
  }

  /** `mode & 0o111 != 0`. */
  predicate AnyExecBit(mode: nat) {
    HasBit(mode, 0x1) || HasBit(mode, 0x8) || HasBit(mode, 0x40)
  }

  const MEDIA_EXTENSIONS: set<string> := {
    "png", "jpg", "jpeg", "gif", "webp", "bmp", "ico", "tif", "tiff", "avif", "ttf", "otf", "woff", "woff2",
    "mp3", "mp4", "wav", "flac", "ogg", "oga", "opus", "mkv", "avi", "webm", "mov", "m4a", "aac"
  }

  function FileName(path: Path): string {
    if path == [] || path[|path| - 1] == ".." then "" else Lower(path[|path| - 1])
  }

  predicate ChurnName(name: string) {
    EndsWith(name, "-wal") || EndsWith(name, "-journal") || EndsWith(name, ".sqlite") || EndsWith(name, ".sqlite3")
    || EndsWith(name, ".bdb") || EndsWith(name, ".db") || EndsWith(name, ".log")
  }

  predicate LibraryName(name: string) {
    EndsWith(name, ".so") || Contains(name, ".so.") || EndsWith(name, ".appimage")
  }

  predicate InBinDir(path: Path) {
    |path| >= 2 && path[|path| - 2] in {"bin", "sbin", "libexec"}
  }

  function Classify(path: Path, mode: nat): Lane {
    var name := FileName(path);
    if ChurnName(name) then Churn
    else if AnyExecBit(mode) then Exec
    else if LibraryName(name) then Exec
    else if InBinDir(path) then Exec
    else if Extension(path).Some? && Lower(Extension(path).value) in MEDIA_EXTENSIONS then Media
    else Data
  }

  // ------------------------------------------------------------------
  // Which files reach which lane

  lemma EndsWithIff(s: string, suffix: string)
    ensures EndsWith(s, suffix) <==> exists stem :: s == stem + suffix
  {
    if EndsWith(s, suffix) {
      assert s == s[..|s| - |suffix|] + suffix;
    }
  }

  lemma {:induction false} ContainsIff(s: string, part: string)
    ensures Contains(s, part) <==> exists a, b :: s == a + part + b
  {
    if Contains(s, part) {
      if s[..|part|] == part {
        assert s == "" + part + s[|part|..];
      } else {
        ContainsIff(s[1..], part);
        var a, b :| s[1..] == a + part + b;
        assert s == ([s[0]] + a) + part + b;
      }
    } else if a, b :| s == a + part + b {
      NotInside(s, part, a, b);
    }
  }

  lemma {:induction false} NotInside(s: string, part: string, a: string, b: string)
    requires s == a + part + b
    ensures Contains(s, part)
    decreases |a|
  {
    if a == "" {
      assert s[..|part|] == part;
    } else {
      NotInside(s[1..], part, a[1..], b);
    }
  }

  /** Live databases and logs, by the end of their name. */
  const CHURN_SUFFIXES: set<string> := {"-wal", "-journal", ".sqlite", ".sqlite3", ".bdb", ".db", ".log"}

  ghost predicate Churning(name: string) {
    exists stem, suffix :: suffix in CHURN_SUFFIXES && name == stem + suffix
  }

  /** A shared library or an AppImage, by its name. */
  ghost predicate Loadable(name: string) {
    || (exists stem :: name == stem + ".so" || name == stem + ".appimage")
    || (exists a, b :: name == a + ".so." + b)
  }

  ghost predicate MediaName(name: string) {
    exists stem, ext :: stem != "" && name == stem + "." + ext && ext in MEDIA_EXTENSIONS
  }

  lemma ChurningIff(name: string)
    ensures ChurnName(name) <==> Churning(name)
  {
    forall suffix | suffix in CHURN_SUFFIXES
      ensures EndsWith(name, suffix) <==> exists stem :: name == stem + suffix
    {
      EndsWithIff(name, suffix);
    }
    if ChurnName(name) {
      var suffix :| suffix in CHURN_SUFFIXES && EndsWith(name, suffix);
      var stem :| name == stem + suffix;
    }
    if Churning(name) {
      var stem, suffix :| suffix in CHURN_SUFFIXES && name == stem + suffix;
      assert EndsWith(name, suffix);
    }
  }

  lemma LoadableIff(name: string)
    ensures LibraryName(name) <==> Loadable(name)
  {
    hide EndsWith, Contains;
    EndsWithIff(name, ".so");
    EndsWithIff(name, ".appimage");
    ContainsIff(name, ".so.");
  }

  lemma MediaIff(dir: Path, name: string)
    requires name != ".."
    ensures var ext := Extension(dir + [name]);
            ext.Some? && Lower(ext.value) in MEDIA_EXTENSIONS <==> MediaName(Lower(name))
  {
    hide Extension;
    DotDot(name);
    ExtensionOfLower(dir, name);
    var ext := Extension(dir + [Lower(name)]);
    if ext.Some? {
      ExtensionIff(dir, Lower(name), ext.value);
    }
    if MediaName(Lower(name)) {
      var stem, e :| stem != "" && Lower(name) == stem + "." + e && e in MEDIA_EXTENSIONS;
      assert '.' !in e;
      ExtensionIff(dir, Lower(name), e);
    }
  }

  /** The lane of a file, in any letter case: live databases and logs are held back; then whatever could be run or
      loaded goes first, by its mode, its name or its directory; media goes last, everything else in between. */
  lemma LaneIff(dir: Path, name: string, mode: nat)
    requires name != ".."
    ensures var low := Lower(name); var lane := Classify(dir + [name], mode);
            var runs := mode % 2 == 1 || mode / 8 % 2 == 1 || mode / 64 % 2 == 1 || Loadable(low)
                        || (dir != [] && dir[|dir| - 1] in {"bin", "sbin", "libexec"});
            && (lane == Churn <==> Churning(low))
            && (lane == Exec <==> !Churning(low) && runs)
            && (lane == Media <==> !Churning(low) && !runs && MediaName(low))
            && (lane == Data <==> !Churning(low) && !runs && !MediaName(low))
  {
    hide ChurnName, LibraryName, Churning, Loadable, MediaName, Extension;
    var path, low := dir + [name], Lower(name);
    assert path[|path| - 1] == name && (dir != [] ==> path[|path| - 2] == dir[|dir| - 1]);
    assert FileName(path) == low;
    ChurningIff(low);
    LoadableIff(low);
    MediaIff(dir, name);
  }

  // ------------------------------------------------------------------
  // Letter case

  lemma {:induction false} LastDotOfLower(name: string)
    ensures LastDot(Lower(name)) == LastDot(name)
  {
    if name != [] {
      var n := |name| - 1;
      LastDotOfLower(name[..n]);
      assert Lower(name)[..n] == Lower(name[..n]);
      assert Lower(name)[n] == LowerChar(name[n]);
    }
  }

  lemma ExtensionOfLower(dir: Path, name: string)
    ensures Extension(dir + [Lower(name)]).Some? <==> Extension(dir + [name]).Some?
    ensures Extension(dir + [name]).Some? ==>
              Extension(dir + [Lower(name)]).value == Lower(Extension(dir + [name]).value)
  {
    var p, l := dir + [name], dir + [Lower(name)];
    assert p[|p| - 1] == name && l[|l| - 1] == Lower(name);
    LastDotOfLower(name);
    if |name| == 2 {
      assert Lower(name)[0] == LowerChar(name[0]) && Lower(name)[1] == LowerChar(name[1]);
      assert name == [name[0], name[1]];
    }
    if Extension(p).Some? {
      var i := LastDot(name).value;
      assert Lower(name)[i + 1..] == Lower(name[i + 1..]);
    }
  }

  /** Triage looks through the letter case of file names: two spellings share a lane. */
  lemma CaseDoesNotMatter(dir: Path, name: string, other: string, mode: nat)
    requires Lower(name) == Lower(other)
    ensures Classify(dir + [name], mode) == Classify(dir + [other], mode)
  {
    LowerCaseLane(dir, name, mode);
    LowerCaseLane(dir, other, mode);
  }

  lemma LowerCaseLane(dir: Path, name: string, mode: nat)
    ensures Classify(dir + [Lower(name)], mode) == Classify(dir + [name], mode)
  {
    hide ChurnName, LibraryName, AnyExecBit;
    LowerTwice(name);
    var p, l := dir + [name], dir + [Lower(name)];
    assert p[|p| - 1] == name && l[|l| - 1] == Lower(name);
    assert |dir| > 0 ==> p[|p| - 2] == dir[|dir| - 1] && l[|l| - 2] == dir[|dir| - 1];
    DotDot(name);
    assert FileName(l) == FileName(p);
    assert InBinDir(l) == InBinDir(p);
    ExtensionOfLower(dir, name);
    if Extension(p).Some? {
      LowerTwice(Extension(p).value);
    }
  }

  lemma DotDot(name: string)
    ensures Lower(name) == ".." <==> name == ".."
  {
    if |name| == 2 {
      assert Lower(name)[0] == LowerChar(name[0]) && Lower(name)[1] == LowerChar(name[1]);
      assert name == [name[0], name[1]];
    }
  }
}
