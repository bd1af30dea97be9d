/** Lexical paths: splitting, cleaning and joining, as file path libraries do it. */
module Paths {

  const SLASH := '/'

  /** A slash opens a new component, any other character joins the first. */
  function Prepend(c: char, parts: seq<string>): (r: seq<string>)
    requires |parts| > 0
    ensures |r| > 0
  {
    if c == SLASH then [[]] + parts else [[c] + parts[0]] + parts[1..]
  }

  /** Splits at slashes. */
  function Split(s: string): (parts: seq<string>)
    ensures |parts| > 0
  {
    if s == [] then [[]] else Prepend(s[0], Split(s[1..]))
  }

  predicate IsAbs(s: string) {
    s != [] && s[0] == SLASH
  }

  /** An empty or "." component stays in place, and ".." undoes the component before it. */
  function OneStep(rooted: bool, at: seq<string>, part: string): seq<string> {
    if part == "" || part == "." then at
    else if part == ".." then
      if at != [] && at[|at| - 1] != ".." then at[..|at| - 1]
      else if rooted then at else at + [part]
    else at + [part]
  }

  function Normalize(rooted: bool, parts: seq<string>): seq<string> {
    if parts == [] then [] else OneStep(rooted, Normalize(rooted, parts[..|parts| - 1]), parts[|parts| - 1])
  }

  lemma NormalizeLast(rooted: bool, parts: seq<string>, part: string)
    ensures Normalize(rooted, parts + [part]) == OneStep(rooted, Normalize(rooted, parts), part)
  {
    assert (parts + [part])[..|parts|] == parts;
  }

  /** The components, each after a slash. */
  function Slashed(parts: seq<string>): string {
    if parts == [] then "" else Slashed(parts[..|parts| - 1]) + [SLASH] + parts[|parts| - 1]
  }

  function Render(rooted: bool, parts: seq<string>): string {
    if parts == [] then (if rooted then "/" else ".")
    else if rooted then Slashed(parts) else Slashed(parts)[1..]
  }

  function Components(s: string): seq<string> {
    Normalize(IsAbs(s), Split(s))
  }

  function Clean(s: string): string {
    Render(IsAbs(s), Components(s))
  }

  function Join(a: string, b: string): string {
    if a == "" && b == "" then ""
    else if a == "" then Clean(b)
    else if b == "" then Clean(a)
    else Clean(a + "/" + b)
  }

  /** The length up to and with the last slash. */
  function LastSlash(s: string): (n: nat)
    ensures n <= |s|
  {
    if s == [] then 0 else if s[|s| - 1] == SLASH then |s| else LastSlash(s[..|s| - 1])
  }

  function Dir(s: string): string {
    Clean(s[..LastSlash(s)])
  }

  function TrimPrefix(s: string, prefix: string): string {
    if prefix <= s then s[|prefix|..] else s
  }

  // ---------------------------------------------------------------- components of a rooted, cleaned path

  /** A component that cleaning keeps. */
  predicate Proper(part: string) {
    part != "" && part != "." && part != ".." && SLASH !in part
  }

  predicate AllProper(parts: seq<string>) {
    forall k {:trigger parts[k]} :: 0 <= k < |parts| ==> Proper(parts[k])
  }

  lemma {:induction false} SplitHasNoSlash(s: string, k: nat)
    requires k < |Split(s)|
    ensures SLASH !in Split(s)[k]
  {
    if s != [] {
      var rest := Split(s[1..]);
      if s[0] == SLASH {
        if k > 0 { SplitHasNoSlash(s[1..], k - 1); }
      } else {
        SplitHasNoSlash(s[1..], k);
      }
    }
  }

  /** Cleaning a rooted path leaves proper components only. */
  lemma {:induction false} NormalizedIsProper(parts: seq<string>)
    requires forall k {:trigger parts[k]} :: 0 <= k < |parts| ==> SLASH !in parts[k]
    ensures AllProper(Normalize(true, parts))
  {
    if parts != [] { NormalizedIsProper(parts[..|parts| - 1]); }
  }

  lemma ComponentsAreProper(s: string)
    requires IsAbs(s)
    ensures AllProper(Components(s))
  {
    forall k | 0 <= k < |Split(s)| ensures SLASH !in Split(s)[k] { SplitHasNoSlash(s, k); }
    NormalizedIsProper(Split(s));
  }

  lemma PrependConcat(c: char, a: seq<string>, b: seq<string>)
    requires |a| > 0
    ensures Prepend(c, a + b) == Prepend(c, a) + b
  {
    assert (a + b)[0] == a[0] && (a + b)[1..] == a[1..] + b;
  }

  /** Splitting what comes before a slash and what comes after it. */
  lemma {:induction false} SplitAtSlash(s: string, t: string)
    ensures Split(s + [SLASH] + t) == Split(s) + Split(t)
  {
    var whole := s + [SLASH] + t;
    if s == [] {
      assert whole[1..] == t;
    } else {
      SplitAtSlash(s[1..], t);
      assert whole[1..] == s[1..] + [SLASH] + t;
      PrependConcat(s[0], Split(s[1..]), Split(t));
    }
  }

  lemma {:induction false} SplitOne(part: string)
    requires SLASH !in part
    ensures Split(part) == [part]
  {
    if part != [] {
      assert part[0] in part;
      SplitOne(part[1..]);
      assert part == [part[0]] + part[1..];
    }
  }

  lemma SplitRoot()
    ensures Split("/") == ["", ""]
  {
    SplitAtSlash("", "");
    assert "" + [SLASH] + "" == "/";
  }

  /** A component and a ".." after it leave no trace in a rooted path, nor does a "." or a double slash. */
  lemma DotsLeaveNoTrace(parts: seq<string>, part: string)
    requires Proper(part)
    ensures Normalize(true, parts + [part] + [".."]) == Normalize(true, parts)
    ensures Normalize(true, parts + ["."]) == Normalize(true, parts) == Normalize(true, parts + [""])
  {
    var longer := parts + [part];
    assert longer[..|parts|] == parts;
    assert (longer + [".."])[..|longer|] == longer;
    assert (parts + ["."])[..|parts|] == parts && (parts + [""])[..|parts|] == parts;
  }

  /** Splitting undoes writing. */
  lemma {:induction false} SplitSlashed(parts: seq<string>)
    requires AllProper(parts)
    ensures Split(Slashed(parts)) == [""] + parts
  {
    if parts != [] {
      var before, last := parts[..|parts| - 1], parts[|parts| - 1];
      SplitSlashed(before);
      SplitAtSlash(Slashed(before), last);
      SplitOne(last);
      assert parts == before + [last];
    }
  }

  lemma {:induction false} NormalizeProper(parts: seq<string>)
    requires AllProper(parts)
    ensures Normalize(true, [""] + parts) == parts
  {
    var all := [""] + parts;
    if parts == [] {
      assert all[..0] == [];
    } else {
      NormalizeProper(parts[..|parts| - 1]);
      assert all[..|all| - 1] == [""] + parts[..|parts| - 1];
      assert parts == parts[..|parts| - 1] + [parts[|parts| - 1]];
    }
  }

  lemma {:induction false} SlashedIsAbs(parts: seq<string>)
    requires parts != []
    ensures IsAbs(Slashed(parts))
  {
    if |parts| > 1 { SlashedIsAbs(parts[..|parts| - 1]); }
  }

  /** The components of a path are what it was written from. */
  lemma ComponentsOfRender(parts: seq<string>)
    requires AllProper(parts)
    ensures IsAbs(Render(true, parts)) && Components(Render(true, parts)) == parts
  {
    if parts == [] {
      SplitRoot();
      assert ["", ""][..1] == [""] && [""][..0] == [];
    } else {
      SlashedIsAbs(parts);
      SplitSlashed(parts);
      NormalizeProper(parts);
    }
  }

  lemma {:induction false} LastSlashOf(s: string, part: string)
    requires SLASH !in part
    ensures LastSlash(s + [SLASH] + part) == |s| + 1
    decreases |part|
  {
    var t := s + [SLASH] + part;
    if part != [] {
      var shorter := part[..|part| - 1];
      assert part[|part| - 1] in part;
      assert t[|t| - 1] == part[|part| - 1];
      assert t[..|t| - 1] == s + [SLASH] + shorter;
      LastSlashOf(s, shorter);
    }
  }

  /** The directory of a path is the path without its last component. */
  lemma DirOfRender(parts: seq<string>)
    requires AllProper(parts) && parts != []
    ensures Dir(Render(true, parts)) == Render(true, parts[..|parts| - 1])
  {
    var before, last := parts[..|parts| - 1], parts[|parts| - 1];
    var s := Slashed(before);
    LastSlashOf(s, last);
    assert Render(true, parts)[..|s| + 1] == s + [SLASH];
    SplitSlashed(before);
    SplitAtSlash(s, "");
    assert s + [SLASH] + "" == s + [SLASH];
    NormalizeProper(before);
    var all := [""] + before + [""];
    assert all[..|all| - 1] == [""] + before;
    if before != [] { SlashedIsAbs(before); }
  }

  /** Different components make different paths. */
  lemma RenderIsInjective(a: seq<string>, b: seq<string>)
    requires AllProper(a) && AllProper(b) && Render(true, a) == Render(true, b)
    ensures a == b
  {
    ComponentsOfRender(a);
    ComponentsOfRender(b);
  }

  lemma {:induction false} SlashedConcat(a: seq<string>, b: seq<string>)
    ensures Slashed(a + b) == Slashed(a) + Slashed(b)
  {
    if b == [] {
      assert a + b == a;
    } else {
      assert (a + b)[..|a + b| - 1] == a + b[..|b| - 1];
      SlashedConcat(a, b[..|b| - 1]);
    }
  }

  // ---------------------------------------------------------------- relative paths

  predicate NonEmptyParts(parts: seq<string>) {
    forall k {:trigger parts[k]} :: 0 <= k < |parts| ==> parts[k] != "" && SLASH !in parts[k]
  }

  lemma {:induction false} NormalizedIsNonEmpty(rooted: bool, parts: seq<string>)
    requires forall k {:trigger parts[k]} :: 0 <= k < |parts| ==> SLASH !in parts[k]
    ensures NonEmptyParts(Normalize(rooted, parts))
  {
    if parts != [] { NormalizedIsNonEmpty(rooted, parts[..|parts| - 1]); }
  }

  lemma {:induction false} SlashedStarts(parts: seq<string>)
    requires NonEmptyParts(parts) && parts != []
    ensures |Slashed(parts)| >= 2 && Slashed(parts)[1] == parts[0][0]
  {
    if |parts| > 1 { SlashedStarts(parts[..|parts| - 1]); }
  }

  /** Cleaning leaves a relative path relative. */
  lemma CleanKeepsRelative(s: string)
    requires !IsAbs(s)
    ensures !IsAbs(Clean(s))
  {
    forall k | 0 <= k < |Split(s)| ensures SLASH !in Split(s)[k] { SplitHasNoSlash(s, k); }
    NormalizedIsNonEmpty(false, Split(s));
    var parts := Components(s);
    if parts != [] {
      SlashedStarts(parts);
      assert parts[0][0] in parts[0];
    }
  }

  /** A path cleans to the one written from `parts` exactly when it is rooted and has these components. */
  lemma CleansTo(s: string, parts: seq<string>)
    requires AllProper(parts)
    ensures Clean(s) == Render(true, parts) <==> IsAbs(s) && Components(s) == parts
  {
    ComponentsOfRender(parts);
    if IsAbs(s) {
      ComponentsAreProper(s);
      if Clean(s) == Render(true, parts) { RenderIsInjective(Components(s), parts); }
    } else {
      CleanKeepsRelative(s);
    }
  }

  /** Cleaning changes nothing about a path written from proper components. */
  lemma CleanOfRender(parts: seq<string>)
    requires AllProper(parts)
    ensures Clean(Render(true, parts)) == Render(true, parts)
  {
    ComponentsOfRender(parts);
  }

  lemma SamePath(s: string, parts: seq<string>)
    requires AllProper(parts)
    ensures Clean(Render(true, parts)) == Clean(s) <==> IsAbs(s) && Components(s) == parts
  {
    CleanOfRender(parts);
    CleansTo(s, parts);
  }
}
