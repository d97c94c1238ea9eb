/** Finding the state-string inside a response by a dot-separated key-path,
    such as "deprecation_info.state". */
module KeyPath {
  import opened Optional
  import opened JsonValue

  /** No segment of a key-path contains the separator. */
  predicate NoDots(segs: seq<string>) {
    forall i :: 0 <= i < |segs| ==> '.' !in segs[i]
  }

  /** Splits a key-path at every '.', keeping empty segments: "a.b" gives
      ["a", "b"], "" gives [""] and "a." gives ["a", ""]. */
  function Split(path: string): (segs: seq<string>)
    ensures |segs| >= 1 && NoDots(segs)
  {
    if path == [] then [[]]
    else
      var rest := Split(path[1..]);
      if path[0] == '.' then [[]] + rest
      else [[path[0]] + rest[0]] + rest[1..]
  }

  /** Glues segments back together with '.' between them. */
  function Join(segs: seq<string>): string
    requires |segs| >= 1
  {
    if |segs| == 1 then segs[0] else segs[0] + "." + Join(segs[1..])
  }

  /** Splitting loses nothing: joining the segments gives the key-path back. */
  lemma {:induction false} JoinSplit(path: string)
    ensures Join(Split(path)) == path
  {
    if path != [] {
      var rest := Split(path[1..]);
      JoinSplit(path[1..]);
      if path[0] == '.' {
        assert Split(path)[1..] == rest;
        assert path == "." + path[1..];
      } else {
        var segs := Split(path);
        if |rest| == 1 {
          assert segs == [[path[0]] + rest[0]];
        } else {
          assert segs[1..] == rest[1..];
          assert Join(rest) == rest[0] + "." + Join(rest[1..]);
        }
      }
    }
  }

  /** A dot-free prefix joins the first segment of what follows it. */
  lemma {:induction false} SplitPrefix(a: string, rest: string)
    requires '.' !in a
    ensures Split(a + rest) == [a + Split(rest)[0]] + Split(rest)[1..]
  {
    if a != [] {
      assert (a + rest)[1..] == a[1..] + rest;
      assert (a + rest)[0] == a[0];
      SplitPrefix(a[1..], rest);
      assert [a[0]] + (a[1..] + Split(rest)[0]) == a + Split(rest)[0];
    } else {
      var segs := Split(rest);
      assert a + rest == rest && a + segs[0] == segs[0];
      assert segs == [segs[0]] + segs[1..];
    }
  }

  /** Joining dot-free segments and splitting again gives the same segments. */
  lemma {:induction false} SplitJoin(segs: seq<string>)
    requires |segs| >= 1 && NoDots(segs)
    ensures Split(Join(segs)) == segs
  {
    if |segs| == 1 {
      SplitPrefix(segs[0], "");
      assert segs[0] + "" == segs[0];
    } else {
      var tail := Join(segs[1..]);
      assert NoDots(segs[1..]) by {
        forall i | 0 <= i < |segs[1..]| ensures '.' !in segs[1..][i] {
          assert segs[1..][i] == segs[i + 1];
        }
      }
      SplitJoin(segs[1..]);
      assert '.' !in segs[0];
      assert segs[0] + "." + tail == segs[0] + ("." + tail);
      SplitPrefix(segs[0], "." + tail);
      assert ("." + tail)[1..] == tail;
      assert Split("." + tail) == [[]] + segs[1..];
      assert segs[0] + [] == segs[0];
      assert segs == [segs[0]] + segs[1..];
    }
  }

  /** Follows the segments down through nested dictionaries, one level per
      segment; None as soon as a segment is missing or names a non-dictionary. */
  function Descend(v: Value, segs: seq<string>): Option<Value>
    decreases |segs|
  {
    if segs == [] then Some(v)
    else match v
      case Dict(m) => if segs[0] in m then Descend(m[segs[0]], segs[1..]) else None
      case _ => None
  }

  /** The string the segments lead to, if they lead to a string. */
  function Lookup(v: Value, segs: seq<string>): Option<string> {
    match Descend(v, segs)
    case Some(Str(s)) => Some(s)
    case _ => None
  }

  /** The state-string at `keyPath` in the response: not found for an unset
      or empty key-path, a missing segment, an intermediate value that is not
      a dictionary, or a final value that is not a string. */
  function Resolve(v: Value, keyPath: Option<string>): (r: Option<string>)
    ensures keyPath == None || keyPath == Some("") ==> r == None
    ensures r.Some? ==> keyPath.Some? && Descend(v, Split(keyPath.value)) == Some(Str(r.value))
    ensures keyPath.Some? && keyPath.value != "" ==>
              (r.Some? <==> Descend(v, Split(keyPath.value)).Some? && Descend(v, Split(keyPath.value)).value.Str?)
  {
    match keyPath
    case None => None
    case Some(p) => if p == "" then None else Lookup(v, Split(p))
  }

  /** Descending along `p + q` is descending along `p` and then along `q`. */
  lemma {:induction false} DescendAppend(v: Value, p: seq<string>, q: seq<string>)
    ensures Descend(v, p + q) ==
              match Descend(v, p)
              case None => None
              case Some(w) => Descend(w, q)
  {
    if p != [] {
      assert (p + q)[0] == p[0] && (p + q)[1..] == p[1..] + q;
      match v
      case Dict(m) =>
        if p[0] in m { DescendAppend(m[p[0]], p[1..], q); }
      case _ =>
    } else {
      assert p + q == q;
    }
  }

  /** One dictionary level per segment: the first segment selects a member
      and the rest of the path is looked up inside it. */
  lemma LookupStep(m: map<string, Value>, k: string, rest: seq<string>)
    ensures Lookup(Dict(m), [k] + rest) == if k in m then Lookup(m[k], rest) else None
  {
  }

  /** A segment missing from the dictionary reached so far means not found,
      whatever follows it. */
  lemma {:induction false} LookupMissingKey(v: Value, p: seq<string>, k: string, q: seq<string>)
    requires Descend(v, p).Some? && Descend(v, p).value.Dict?
    requires k !in Descend(v, p).value.members
    ensures Lookup(v, p + [k] + q) == None
  {
    DescendAppend(v, p, [k] + q);
    assert p + [k] + q == p + ([k] + q);
  }

  /** A segment applied to a string or another non-dictionary means not found,
      whatever follows it. */
  lemma {:induction false} LookupThroughNonDict(v: Value, p: seq<string>, k: string, q: seq<string>)
    requires Descend(v, p).Some? && !Descend(v, p).value.Dict?
    ensures Lookup(v, p + [k] + q) == None
  {
    DescendAppend(v, p, [k] + q);
    assert p + [k] + q == p + ([k] + q);
  }

  /** The value made of one dictionary per segment, nested, with `leaf` at the bottom. */
  function Nest(segs: seq<string>, leaf: Value): Value
    decreases |segs|
  {
    if segs == [] then leaf else Dict(map[segs[0] := Nest(segs[1..], leaf)])
  }

  /** Descending along the segments a value was nested by reaches its leaf. */
  lemma {:induction false} DescendNest(segs: seq<string>, leaf: Value)
    ensures Descend(Nest(segs, leaf), segs) == Some(leaf)
  {
    if segs != [] { DescendNest(segs[1..], leaf); }
  }

  /** A state-string placed at a non-empty key-path is found there again. */
  lemma ResolveNest(path: string, s: string)
    requires path != ""
    ensures Resolve(Nest(Split(path), Str(s)), Some(path)) == Some(s)
  {
    DescendNest(Split(path), Str(s));
  }
}
