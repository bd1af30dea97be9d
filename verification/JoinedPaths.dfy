/** Joining paths and trimming one off another, told in components. */
module JoinedPaths {
  import opened Paths

  /** What comes after some components sees only what they come to. */
  lemma {:induction false} NormalizeTail(a: seq<string>, b: seq<string>, rest: seq<string>)
    requires Normalize(true, a) == Normalize(true, b)
    ensures Normalize(true, a + rest) == Normalize(true, b + rest)
  {
    if rest == [] {
      assert a + rest == a && b + rest == b;
    } else {
      var before, last := rest[..|rest| - 1], rest[|rest| - 1];
      NormalizeTail(a, b, before);
      NormalizeLast(true, a + before, last);
      NormalizeLast(true, b + before, last);
      assert a + rest == a + before + [last] && b + rest == b + before + [last];
    }
  }

  lemma NormalizeSkipsEmpty(rest: seq<string>)
    ensures Normalize(true, [""] + rest) == Normalize(true, rest)
  {
    assert [""][..0] == [];
    NormalizeTail([""], [], rest);
    assert [] + rest == rest;
  }

  /** The root is its own parent. */
  lemma RootIsItsParent(rest: seq<string>)
    ensures Normalize(true, [".."] + rest) == Normalize(true, rest)
  {
    assert [".."][..0] == [];
    NormalizeTail([".."], [], rest);
    assert [] + rest == rest;
  }

  lemma ComponentsOfClean(s: string)
    requires IsAbs(s)
    ensures IsAbs(Clean(s)) && Components(Clean(s)) == Components(s)
  {
    ComponentsAreProper(s);
    ComponentsOfRender(Components(s));
  }

  /** Joining a path to a rooted one walks on from there. */
  lemma ComponentsOfJoin(s: string, t: string)
    requires IsAbs(s)
    ensures IsAbs(Join(s, t)) && Components(Join(s, t)) == Normalize(true, Split(s) + Split(t))
  {
    if t == "" {
      var all := Split(s) + [""];
      assert all[..|all| - 1] == Split(s);
      ComponentsOfClean(s);
    } else {
      var joined := s + [SLASH] + t;
      assert joined == s + "/" + t && IsAbs(joined);
      SplitAtSlash(s, t);
      ComponentsOfClean(joined);
    }
  }

  /** Joined to "/", any path is walked from the root. */
  lemma ComponentsFromRoot(s: string)
    ensures IsAbs(Join("/", s)) && Components(Join("/", s)) == Normalize(true, Split(s))
  {
    ComponentsOfJoin("/", s);
    ComponentsOfRender([]);
    assert Normalize(true, Split("/")) == [];
    NormalizeTail(Split("/"), [], Split(s));
    assert [] + Split(s) == Split(s);
  }

  lemma NormalizeKeepsProper(parts: seq<string>)
    requires AllProper(parts)
    ensures Normalize(true, parts) == parts
  {
    NormalizeSkipsEmpty(parts);
    NormalizeProper(parts);
  }

  /** A component and those written after it. */
  lemma {:induction false} SplitRest(part: string, parts: seq<string>)
    requires SLASH !in part && AllProper(parts)
    ensures Split(part + Slashed(parts)) == [part] + parts
  {
    if part == "" {
      SplitSlashed(parts);
      assert part + Slashed(parts) == Slashed(parts);
    } else {
      var s := part + Slashed(parts);
      assert part[0] in part;
      SplitRest(part[1..], parts);
      assert s[1..] == part[1..] + Slashed(parts);
      assert part == [part[0]] + part[1..];
    }
  }

  lemma SplitRelative(parts: seq<string>)
    requires AllProper(parts) && parts != []
    ensures Split(Render(false, parts)) == parts && !IsAbs(Render(false, parts))
  {
    SlashedFront(parts);
    var s := parts[0] + Slashed(parts[1..]);
    assert Render(false, parts) == s;
    SplitRest(parts[0], parts[1..]);
    assert s[0] == parts[0][0] && parts[0][0] in parts[0];
  }

  /** Read from the front. */
  lemma SlashedFront(parts: seq<string>)
    requires parts != []
    ensures Slashed(parts) == [SLASH] + parts[0] + Slashed(parts[1..])
  {
    assert parts == [parts[0]] + parts[1..];
    SlashedConcat([parts[0]], parts[1..]);
    assert [parts[0]][..0] == [];
  }

  /** The path of `parts` starts with the characters of the path of `m`: the last component of `m` may end in the
      middle of one. */
  predicate StartsLike(parts: seq<string>, m: seq<string>) {
    m != [] ==>
      var k := |m| - 1;
      k < |parts| && m[..k] == parts[..k] && m[k] <= parts[k]
  }

  /** What is left of the component in which the path of `m` ends. */
  function CutPart(parts: seq<string>, m: seq<string>): string
    requires m != [] && StartsLike(parts, m)
  {
    var k := |m| - 1;
    parts[k][|m[k]|..]
  }

  lemma {:induction false} StartsLikeIff(parts: seq<string>, m: seq<string>)
    requires AllProper(parts) && AllProper(m)
    ensures Slashed(m) <= Slashed(parts) <==> StartsLike(parts, m)
    decreases |m|
  {
    if m != [] {
      SlashedFront(m);
      if parts != [] {
        SlashedFront(parts);
        var x, y := m[0] + Slashed(m[1..]), parts[0] + Slashed(parts[1..]);
        assert Slashed(m) == [SLASH] + x && Slashed(parts) == [SLASH] + y;
        assert Slashed(m) <= Slashed(parts) <==> x <= y by {
          assert ([SLASH] + x)[1..] == x && ([SLASH] + y)[1..] == y;
          if x <= y { assert y[..|x|] == x; }
        }
        if |m| == 1 {
          FirstPartPrefix(m[0], parts[0], parts[1..]);
          assert m[..0] == parts[..0] && Slashed(m[1..]) == "" && x == m[0];
        } else {
          StartsLikeIff(parts[1..], m[1..]);
          FirstPartEqual(m[0], m[1..], parts[0], parts[1..]);
          StartsLikeRest(parts, m);
        }
      }
    }
  }

  /** A component without a slash starts a path exactly when it starts its first component. */
  lemma FirstPartPrefix(x: string, y: string, tail: seq<string>)
    requires SLASH !in x
    ensures x <= y + Slashed(tail) <==> x <= y
  {
    var s := y + Slashed(tail);
    if tail != [] && |x| > |y| {
      SlashedFront(tail);
      assert s[|y|] == SLASH && x[|y|] in x;
    }
  }

  lemma FirstPartEqual(x: string, m: seq<string>, y: string, tail: seq<string>)
    requires SLASH !in x && SLASH !in y && m != []
    ensures x + Slashed(m) <= y + Slashed(tail) <==> x == y && Slashed(m) <= Slashed(tail)
  {
    var s, t := x + Slashed(m), y + Slashed(tail);
    SlashedFront(m);
    assert s[|x|] == SLASH;
    if |x| < |y| { assert t[|x|] == y[|x|] && y[|x|] in y; }
    if s <= t {
      assert x <= t;
      FirstPartPrefix(x, y, tail);
      assert x == y;
      assert s[|x|..] == Slashed(m) && t[|x|..] == Slashed(tail);
    }
  }

  lemma StartsLikeRest(parts: seq<string>, m: seq<string>)
    requires |m| > 1 && parts != []
    ensures StartsLike(parts, m) <==> m[0] == parts[0] && StartsLike(parts[1..], m[1..])
  {
    var k := |m| - 1;
    assert m[..k] == [m[0]] + m[1..][..k - 1];
    if k < |parts| { assert parts[..k] == [parts[0]] + parts[1..][..k - 1]; }
  }

  /** What follows the characters of the path of `m`. */
  lemma AfterPrefix(parts: seq<string>, m: seq<string>)
    requires m != [] && StartsLike(parts, m)
    ensures Slashed(parts) == Slashed(m) + (CutPart(parts, m) + Slashed(parts[|m|..]))
  {
    var k := |m| - 1;
    assert parts == parts[..k] + parts[k..];
    SlashedConcat(parts[..k], parts[k..]);
    SlashedFront(parts[k..]);
    assert parts[k..][1..] == parts[|m|..];
    assert parts[k] == m[k] + CutPart(parts, m);
  }

  /** Trimming the path of `m` off that of `parts` drops components if `m` is an ancestor, and does nothing if the
      path does not start with those characters. Otherwise it cuts a component in two, and what is left of it is
      taken for the first component. */
  lemma TrimmedComponents(parts: seq<string>, m: seq<string>)
    requires AllProper(parts) && AllProper(m)
    ensures var left := Components(Join("/", TrimPrefix(Render(true, parts), Render(true, m))));
            && (m <= parts ==> left == parts[|m|..])
            && (!StartsLike(parts, m) ==> left == parts)
            && (m != [] && StartsLike(parts, m) ==> left == Normalize(true, [CutPart(parts, m)] + parts[|m|..]))
  {
    var s := TrimPrefix(Render(true, parts), Render(true, m));
    ComponentsFromRoot(s);
    if m == [] {
      TrimmedRoot(parts);
      assert parts[0..] == parts;
    } else if StartsLike(parts, m) {
      TrimmedStart(parts, m);
      if m <= parts {
        assert m[|m| - 1] == parts[|m| - 1] && CutPart(parts, m) == "";
        NormalizeSkipsEmpty(parts[|m|..]);
        NormalizeKeepsProper(parts[|m|..]);
      }
    } else {
      NotTrimmed(parts, m);
    }
  }

  lemma TrimmedRoot(parts: seq<string>)
    requires AllProper(parts)
    ensures Normalize(true, Split(TrimPrefix(Render(true, parts), "/"))) == parts
  {
    if parts == [] {
      assert Split("")[..0] == [];
    } else {
      SlashedFront(parts);
      SplitRelative(parts);
      assert TrimPrefix(Render(true, parts), "/") == Render(false, parts);
      NormalizeKeepsProper(parts);
    }
  }

  lemma TrimmedStart(parts: seq<string>, m: seq<string>)
    requires AllProper(parts) && AllProper(m) && m != [] && StartsLike(parts, m)
    ensures Split(TrimPrefix(Render(true, parts), Render(true, m))) == [CutPart(parts, m)] + parts[|m|..]
  {
    AfterPrefix(parts, m);
    SplitRest(CutPart(parts, m), parts[|m|..]);
  }

  lemma NotTrimmed(parts: seq<string>, m: seq<string>)
    requires AllProper(parts) && AllProper(m) && !StartsLike(parts, m)
    ensures Normalize(true, Split(TrimPrefix(Render(true, parts), Render(true, m)))) == parts
  {
    StartsLikeIff(parts, m);
    ComponentsOfRender(parts);
    SlashedFront(m);
  }
}
