// runtime/harness_runtime/l3_adaptation.py: write refs as component prefixes.

module WriteScopes {
  /** `ref.split("/")`. */
  function Split(s: string): (r: seq<string>)
    ensures r != []
  {
    if s == [] then [""]
    else if s[0] == '/' then [""] + Split(s[1..])
    else
      var rest := Split(s[1..]);
      [[s[0]] + rest[0]] + rest[1..]
  }

  /** The component-prefix test of `_validate_candidate` and `_related_path`. */
  predicate Related(left: string, right: string) {
    Split(left) <= Split(right) || Split(right) <= Split(left)
  }

  /** A path lies under a ref: it is the ref, or it starts with the ref followed by a slash. */
  predicate Under(path: string, ref: string) {
    path == ref || ref + "/" <= path
  }

  lemma {:induction false} PrefixIsUnder(ref: string, path: string)
    ensures Split(ref) <= Split(path) <==> Under(path, ref)
  {
    if ref == [] {
      assert Split(ref) == [""];
      if path != [] && path[0] != '/' {
        assert Split(path)[0] != "";
      }
    } else if path == [] {
      if ref[0] == '/' {
        assert |Split(ref)| > 1;
      } else {
        assert Split(ref)[0] != "";
      }
    } else {
      var r, p := Split(ref[1..]), Split(path[1..]);
      PrefixIsUnder(ref[1..], path[1..]);
      assert Under(path, ref) <==> path[0] == ref[0] && Under(path[1..], ref[1..]) by {
        assert ref == [ref[0]] + ref[1..] && path == [path[0]] + path[1..];
        assert ref + "/" == [ref[0]] + (ref[1..] + "/");
      }
      if path[0] == ref[0] {
        SameHead(ref[0], r, p);
      } else if ref[0] == '/' {
        assert Split(ref)[0] == "" && Split(path)[0] != "";
      } else if path[0] == '/' {
        assert Split(ref)[0] != "" && Split(path)[0] == "";
      } else {
        assert Split(ref)[0][0] == ref[0] && Split(path)[0][0] == path[0];
      }
    }
  }

  lemma SameHead(c: char, r: seq<string>, p: seq<string>)
    requires r != [] && p != []
    ensures [""] + r <= [""] + p <==> r <= p
    ensures [[c] + r[0]] + r[1..] <= [[c] + p[0]] + p[1..] <==> r <= p
  {
    if [""] + r <= [""] + p {
      assert r == ([""] + r)[1..] && ([""] + p)[1..] == p;
    }
    var rc, pc := [[c] + r[0]] + r[1..], [[c] + p[0]] + p[1..];
    if rc <= pc {
      assert rc[0][1..] == r[0] && pc[0][1..] == p[0];
      assert rc[1..] == r[1..] && pc[1..] == p[1..];
      assert r == [r[0]] + r[1..] && p == [p[0]] + p[1..];
      assert forall i | 0 <= i < |r| :: r[i] == p[i] by {
        assert forall i | 1 <= i < |r| :: rc[i] == pc[i];
      }
    }
    if r <= p {
      assert forall i | 0 <= i < |rc| :: rc[i] == pc[i];
    }
  }

  /** Two refs are related exactly when some path lies under both. */
  lemma RelatedExactlyWhenOverlapping(left: string, right: string)
    ensures Related(left, right) <==> exists path: string :: Under(path, left) && Under(path, right)
  {
    PrefixIsUnder(left, right);
    PrefixIsUnder(right, left);
    if Related(left, right) {
      assert Under(left, left) && Under(right, right);
    }
    if path: string :| Under(path, left) && Under(path, right) {
      PrefixIsUnder(left, path);
      PrefixIsUnder(right, path);
      if |Split(left)| <= |Split(right)| {
        assert Split(left) == Split(path)[..|Split(left)|] == Split(right)[..|Split(left)|];
      } else {
        assert Split(right) == Split(path)[..|Split(right)|] == Split(left)[..|Split(right)|];
      }
    }
  }

  // ---- the two checks ----------------------------------------------------------

  /** `_path_parts` raises on absolute paths, backslashes, and empty or dotted components. */
  predicate PlainPath(ref: string) {
    && (ref == "" || ref[0] != '/')
    && '\\' !in ref
    && forall part | part in Split(ref) :: part != "" && part != "." && part != ".."
  }

  predicate Distinct<T(==)>(s: seq<T>) {
    forall i, j | 0 <= i < j < |s| :: s[i] != s[j]
  }

  predicate PairwiseUnrelated(refs: seq<string>) {
    forall i, j | 0 <= i < j < |refs| :: !Related(refs[i], refs[j])
  }

  predicate Separate(mutable: seq<string>, controls: seq<string>) {
    forall m, c | m in mutable && c in controls :: !Related(m, c)
  }

  /** Each path under at most one ref: exactly what the pairwise test accepts. */
  lemma UnrelatedRefsAreDisjoint(refs: seq<string>)
    ensures PairwiseUnrelated(refs) <==>
      forall path: string, i, j | 0 <= i < j < |refs| :: !(Under(path, refs[i]) && Under(path, refs[j]))
  {
    forall i, j | 0 <= i < j < |refs|
      ensures !Related(refs[i], refs[j]) <==>
        forall path: string :: !(Under(path, refs[i]) && Under(path, refs[j]))
    {
      RelatedExactlyWhenOverlapping(refs[i], refs[j]);
    }
  }

  /** No path under both a mutable ref and a control: exactly what the overlap test accepts. */
  lemma SeparateRefsAreDisjoint(mutable: seq<string>, controls: seq<string>)
    ensures Separate(mutable, controls) <==>
      forall path: string, m, c | m in mutable && c in controls :: !(Under(path, m) && Under(path, c))
  {
    forall m, c | m in mutable && c in controls
      ensures !Related(m, c) <==> forall path: string :: !(Under(path, m) && Under(path, c))
    {
      RelatedExactlyWhenOverlapping(m, c);
    }
  }
}
