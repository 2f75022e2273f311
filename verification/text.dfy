/** ASCII text operations used by the settings code: trimming, lower-casing, splitting at '/'. */
module Text {
  import opened Base

  predicate IsSpace(c: char) {
    c == ' ' || 9 <= c as int <= 13
  }

  function TrimStart(s: string): (r: string)
    ensures |r| <= |s|
    ensures r == [] || (!IsSpace(r[0]) && s != [] && r[|r| - 1] == s[|s| - 1])
  {
    if s != [] && IsSpace(s[0]) then TrimStart(s[1..]) else s
  }

  function TrimEnd(s: string): (r: string)
    ensures |r| <= |s|
    ensures r == [] || (!IsSpace(r[|r| - 1]) && s != [] && r[0] == s[0])
  {
    if s != [] && IsSpace(s[|s| - 1]) then TrimEnd(s[..|s| - 1]) else s
  }

  function Trim(s: string): string {
    TrimEnd(TrimStart(s))
  }

  /** Text with no blank at either end. */
  predicate Trimmed(s: string) {
    s == [] || (!IsSpace(s[0]) && !IsSpace(s[|s| - 1]))
  }

  lemma TrimTrims(s: string)
    ensures Trimmed(Trim(s))
    ensures Trimmed(s) ==> Trim(s) == s
  {
  }

  ghost predicate Blank(s: string) {
    forall i :: 0 <= i < |s| ==> s[i] in " \t\n\r" || s[i] as int == 11 || s[i] as int == 12
  }

  lemma {:induction false} TrimStartMeans(s: string) returns (head: string)
    ensures s == head + TrimStart(s) && Blank(head)
  {
    head := "";
    if s != [] && IsSpace(s[0]) {
      var rest := TrimStartMeans(s[1..]);
      head := [s[0]] + rest;
      assert s == [s[0]] + s[1..];
    }
  }

  lemma {:induction false} TrimEndMeans(s: string) returns (tail: string)
    ensures s == TrimEnd(s) + tail && Blank(tail)
  {
    tail := "";
    if s != [] && IsSpace(s[|s| - 1]) {
      var rest := TrimEndMeans(s[..|s| - 1]);
      tail := rest + [s[|s| - 1]];
      assert s == s[..|s| - 1] + [s[|s| - 1]];
    }
  }

  /** Trimming takes away blanks at the ends and nothing else; none is left there (`TrimTrims`). */
  lemma TrimMeans(s: string) returns (head: string, tail: string)
    ensures s == head + Trim(s) + tail && Blank(head) && Blank(tail)
  {
    hide TrimStart, TrimEnd;
    head := TrimStartMeans(s);
    tail := TrimEndMeans(TrimStart(s));
  }

  lemma TrimTwice(s: string)
    ensures Trim(TrimStart(s)) == Trim(s)
  {
  }

  /** `trim_start_matches` with one character. */
  function StripLead(s: string, c: char): (r: string)
    ensures r == [] || (r[0] != c && s != [] && r[|r| - 1] == s[|s| - 1])
  {
    if s != [] && s[0] == c then StripLead(s[1..], c) else s
  }

  function LowerChar(c: char): char {
    if 'A' <= c <= 'Z' then (c as int + 32) as char else c
  }

  function Lower(s: string): (r: string)
    ensures |r| == |s|
    ensures forall i :: 0 <= i < |s| ==> r[i] == LowerChar(s[i])
  {
    seq(|s|, i requires 0 <= i < |s| => LowerChar(s[i]))
  }

  /** Upper-case letters become lower-case ones, every other character stays. */
  lemma LowerMeans(s: string, i: nat)
    requires i < |s|
    ensures 'A' <= s[i] <= 'Z' ==> Lower(s)[i] as int == s[i] as int - 'A' as int + 'a' as int
    ensures !('A' <= s[i] <= 'Z') ==> Lower(s)[i] == s[i]
  {
  }

  lemma LowerTwice(s: string)
    ensures Lower(Lower(s)) == Lower(s)
  {
  }

  /** The components of a path text: split at '/', with empty and "." parts dropped. */
  function Components(s: string): Path {
    ComponentsFrom(s, "")
  }

  function Part(part: string): Path {
    if part == "" || part == "." then [] else [part]
  }

  function ComponentsFrom(s: string, part: string): Path {
    if s == [] then Part(part)
    else if s[0] == '/' then Part(part) + ComponentsFrom(s[1..], "")
    else ComponentsFrom(s[1..], part + [s[0]])
  }

  /** A component as it occurs in a resolved path. */
  predicate ValidComponent(c: string) {
    c != "" && c != "." && '/' !in c
  }

  function Render(path: Path): string {
    if path == [] then "" else "/" + path[0] + Render(path[1..])
  }

  lemma {:induction false} EatComponent(c: string, rest: string, part: string)
    requires '/' !in c
    ensures ComponentsFrom(c + rest, part) == ComponentsFrom(rest, part + c)
  {
    if c == "" {
      assert c + rest == rest && part + c == part;
    } else {
      assert c == [c[0]] + c[1..];
      EatComponent(c[1..], rest, part + [c[0]]);
      assert (c + rest)[1..] == c[1..] + rest;
      assert part + [c[0]] + c[1..] == part + c;
    }
  }

  /** Splitting a rendered path gives its components back. */
  lemma {:induction false} ComponentsOfRendered(path: Path)
    requires forall i :: 0 <= i < |path| ==> ValidComponent(path[i])
    ensures Components(Render(path)) == path
  {
    if path != [] {
      var c, rest := path[0], Render(path[1..]);
      ComponentsOfRendered(path[1..]);
      assert Render(path)[1..] == c + rest;
      EatComponent(c, rest, "");
      assert "" + c == c;
      if rest != "" {
        assert ComponentsFrom(rest, c) == [c] + ComponentsFrom(rest[1..], "");
        assert ComponentsFrom(rest, "") == ComponentsFrom(rest[1..], "");
      }
      assert path == [c] + path[1..];
    }
  }

  lemma {:induction false} ComponentsSplit(a: string, b: string, part: string)
    ensures ComponentsFrom(a + "/" + b, part) == ComponentsFrom(a, part) + Components(b)
  {
    if a == "" {
      assert a + "/" + b == "/" + b && ("/" + b)[1..] == b;
    } else {
      assert (a + "/" + b)[1..] == a[1..] + "/" + b && (a + "/" + b)[0] == a[0];
      ComponentsSplit(a[1..], b, if a[0] == '/' then "" else part + [a[0]]);
    }
  }

  /** Splitting is at every '/', part by part. */
  lemma ComponentsJoin(a: string, b: string)
    ensures Components(a + "/" + b) == Components(a) + Components(b)
  {
    ComponentsSplit(a, b, "");
  }

  /** A part without '/' is a component, unless it is empty or a single dot. */
  lemma OneComponent(part: string)
    requires '/' !in part
    ensures Components(part) == if part == "" || part == "." then [] else [part]
  {
    EatComponent(part, "", "");
    assert part + "" == part && "" + part == part;
  }
}
