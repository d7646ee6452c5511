/** Scenario files (src/sim/config.rs): documents that extend one another, and the merge that combines them. */
module Config {
  import opened Wrappers

  datatype Yaml =
    | Text(s: string)
    | OtherScalar(s: string)
    | Sequence(items: seq<Yaml>)
    | Mapping(entries: map<string, Yaml>)

  // ---------- deep_merge ----------

  function Merge(base: Yaml, over: Yaml): Yaml
    decreases over
  {
    if base.Mapping? && over.Mapping? then
      Mapping(map k | k in base.entries.Keys + over.entries.Keys ::
        if k !in over.entries then base.entries[k]
        else if k in base.entries then Merge(base.entries[k], over.entries[k])
        else over.entries[k])
    else over
  }

  /** The loop of the source: the override's keys are taken in whatever order the mapping holds them. */
  method DeepMerge(base: Yaml, over: Yaml) returns (merged: Yaml)
    ensures merged == Merge(base, over)
    decreases over
  {
    if !base.Mapping? || !over.Mapping? {
      return over;
    }
    var result := base.entries;
    var rest := over.entries.Keys;
    while rest != {}
      invariant rest <= over.entries.Keys
      invariant result.Keys == base.entries.Keys + (over.entries.Keys - rest)
      invariant forall k :: k in result && (k in rest || k !in over.entries) ==> result[k] == base.entries[k]
      invariant forall k :: k in over.entries && k !in rest ==> result[k] == Merge(base, over).entries[k]
      decreases rest
    {
      var k :| k in rest;
      var v := over.entries[k];
      if k in result {
        var inner := DeepMerge(result[k], v);
        result := result[k := inner];
      } else {
        result := result[k := v];
      }
      rest := rest - {k};
    }
    merged := Mapping(result);
    assert result == Merge(base, over).entries;
  }

  lemma {:induction false} MergeIsIdempotent(y: Yaml)
    ensures Merge(y, y) == y
  {
    if y.Mapping? {
      forall k | k in y.entries ensures Merge(y.entries[k], y.entries[k]) == y.entries[k] {
        MergeIsIdempotent(y.entries[k]);
      }
      assert Merge(y, y).entries == y.entries;
    }
  }

  /** The empty mapping changes no mapping, from either side. */
  lemma EmptyMappingIsIdentity(y: Yaml)
    requires y.Mapping?
    ensures Merge(y, Mapping(map[])) == y && Merge(Mapping(map[]), y) == y
  {
    assert Merge(y, Mapping(map[])).entries == y.entries;
    assert Merge(Mapping(map[]), y).entries == y.entries;
  }

  // ---------- what a merged document holds at a path ----------

  function Lookup(y: Yaml, path: seq<string>): Option<Yaml>
    decreases |path|
  {
    if path == [] then Some(y)
    else if y.Mapping? && path[0] in y.entries then Lookup(y.entries[path[0]], path[1..])
    else None
  }

  /** Somewhere strictly above `path` the document puts something other than a mapping. */
  predicate Blocks(y: Yaml, path: seq<string>)
    decreases |path|
  {
    path != [] && (!y.Mapping? || (path[0] in y.entries && Blocks(y.entries[path[0]], path[1..])))
  }

  /** At every path the override wins where it speaks, except that two mappings are merged; where it is
      silent the base shows through, unless the override has put a leaf above. */
  lemma {:induction false} MergeAtPath(base: Yaml, over: Yaml, path: seq<string>)
    ensures Lookup(Merge(base, over), path) ==
      match Lookup(over, path)
      case Some(o) => Some(match Lookup(base, path) case Some(b) => Merge(b, o) case None => o)
      case None => if Blocks(over, path) then None else Lookup(base, path)
    decreases |path|
  {
    if path != [] && base.Mapping? && over.Mapping? {
      var k := path[0];
      if k in base.entries && k in over.entries {
        MergeAtPath(base.entries[k], over.entries[k], path[1..]);
      }
    }
  }

  /** Mappings of `inner` hold no key, at any depth, that `outer` does not. */
  predicate Covers(outer: Yaml, inner: Yaml)
    decreases inner
  {
    inner.Mapping? && outer.Mapping? ==>
      forall k :: k in inner.entries ==> k in outer.entries && Covers(outer.entries[k], inner.entries[k])
  }

  /** Wherever the middle document replaces a mapping of the first by a leaf and the last puts a mapping
      back, the last must already hold everything the first held there. */
  predicate Harmless(a: Yaml, b: Yaml, c: Yaml)
    decreases a
  {
    if a.Mapping? && c.Mapping? then
      if b.Mapping? then
        forall k :: k in a.entries && k in b.entries && k in c.entries ==> Harmless(a.entries[k], b.entries[k], c.entries[k])
      else Covers(c, a)
    else true
  }

  lemma {:induction false} MergeIsOuterIffCovers(a: Yaml, c: Yaml)
    ensures Merge(a, c) == c <==> Covers(c, a)
    decreases a
  {
    if a.Mapping? && c.Mapping? {
      var m := Merge(a, c).entries;
      forall k | k in a.entries && k in c.entries ensures m[k] == c.entries[k] <==> Covers(c.entries[k], a.entries[k]) {
        MergeIsOuterIffCovers(a.entries[k], c.entries[k]);
      }
      if Covers(c, a) {
        assert m == c.entries;
      } else {
        var k :| k in a.entries && !(k in c.entries && Covers(c.entries[k], a.entries[k]));
        assert k in m && (k in c.entries ==> m[k] != c.entries[k]);
      }
    }
  }

  /** Grouping does not matter exactly when the middle document is harmless. */
  lemma {:induction false} MergeIsAssociativeIffHarmless(a: Yaml, b: Yaml, c: Yaml)
    ensures Merge(Merge(a, b), c) == Merge(a, Merge(b, c)) <==> Harmless(a, b, c)
    decreases a
  {
    if a.Mapping? && c.Mapping? {
      if b.Mapping? {
        var left, right := Merge(Merge(a, b), c), Merge(a, Merge(b, c));
        assert left.entries.Keys == right.entries.Keys;
        forall k | k in left.entries
          ensures left.entries[k] == right.entries[k]
             <==> (k in a.entries && k in b.entries && k in c.entries ==> Harmless(a.entries[k], b.entries[k], c.entries[k]))
        {
          if k in a.entries && k in b.entries && k in c.entries {
            MergeIsAssociativeIffHarmless(a.entries[k], b.entries[k], c.entries[k]);
          }
        }
        if Harmless(a, b, c) {
          assert left.entries == right.entries;
        }
      } else {
        MergeIsOuterIffCovers(a, c);
      }
    }
  }

  /** A document that turns a mapping into a leaf in between loses what was there, but only one way round. */
  lemma MergeIsNotAssociative()
    ensures var a, b, c := Mapping(map["k" := Text("v")]), Text("leaf"), Mapping(map[]);
            Merge(Merge(a, b), c) != Merge(a, Merge(b, c))
  {
    var a, b, c := Mapping(map["k" := Text("v")]), Text("leaf"), Mapping(map[]);
    assert "k" in a.entries;
    MergeIsAssociativeIffHarmless(a, b, c);
  }

  // ---------- load_yaml_with_extends ----------

  datatype File = Unparsable | Document(yaml: Yaml)

  /** The files by canonical path, and how an `extends` value found in one file names another. */
  datatype Disk = Disk(files: map<string, File>, resolve: (string, string) -> string)

  datatype Error = CircularExtends(cycle: set<string>) | Io(path: string) | Parse(path: string)

  datatype Result = Ok(value: Yaml) | Err(error: Error)

  /** One file as the loader sees it, its own `extends` key taken out. */
  datatype Link = Missing | Malformed | Root(doc: Yaml) | Child(doc: Yaml, parent: string)

  const EXTENDS := "extends"

  function Read(disk: Disk, path: string): Link {
    if path !in disk.files then Missing
    else
      match disk.files[path]
      case Unparsable => Malformed
      case Document(y) =>
        if y.Mapping? && EXTENDS in y.entries then
          match y.entries[EXTENDS]
          case Text(rel) => Child(Mapping(y.entries - {EXTENDS}), disk.resolve(path, rel))
          case _ => Malformed
        else Root(y)
  }

  lemma UnvisitedShrinks(disk: Disk, path: string, visited: set<string>)
    requires path in disk.files && path !in visited
    ensures |disk.files.Keys - (visited + {path})| < |disk.files.Keys - visited|
  {
    var before, after := disk.files.Keys - visited, disk.files.Keys - (visited + {path});
    assert after == before - {path};
  }

  function LoadFrom(disk: Disk, path: string, visited: set<string>): Result
    decreases |disk.files.Keys - visited|
  {
    if path in visited then Err(CircularExtends(visited))
    else
      match Read(disk, path)
      case Missing => Err(Io(path))
      case Malformed => Err(Parse(path))
      case Root(doc) => Ok(doc)
      case Child(doc, parent) =>
        UnvisitedShrinks(disk, path, visited);
        match LoadFrom(disk, parent, visited + {path})
        case Ok(base) => Ok(Merge(base, doc))
        case Err(e) => Err(e)
  }

  /** What loading a file comes to, in terms of the file itself: a file on the way here is circular; one that is
      missing or unparsable, or extends something that is not a name, fails under its own path; one that extends
      nothing is its document; and one that names a parent is laid over what loading the parent gives, or fails
      as the parent does. */
  lemma FileOutcome(disk: Disk, path: string, visited: set<string>)
    ensures var r := LoadFrom(disk, path, visited);
            if path in visited then r == Err(CircularExtends(visited))
            else if path !in disk.files then r == Err(Io(path))
            else if disk.files[path] == Unparsable then r == Err(Parse(path))
            else
              var y := disk.files[path].yaml;
              if !y.Mapping? || "extends" !in y.entries then r == Ok(y)
              else if !y.entries["extends"].Text? then r == Err(Parse(path))
              else
                var base := LoadFrom(disk, disk.resolve(path, y.entries["extends"].s), visited + {path});
                if base.Err? then r == base else r == Ok(Merge(base.value, Mapping(y.entries - {"extends"})))
  {
  }

  class Loader {
    const disk: Disk
    var visited: set<string>

    constructor (disk: Disk)
      ensures this.disk == disk && visited == {}
    {
      this.disk := disk;
      visited := {};
    }

    /** On success the set of visited files is back to what it was. */
    method Load(path: string) returns (r: Result)
      modifies this
      ensures r == LoadFrom(disk, path, old(visited))
      ensures r.Ok? ==> visited == old(visited)
      decreases |disk.files.Keys - visited|
    {
      if path in visited {
        return Err(CircularExtends(visited));
      }
      ghost var before := visited;
      visited := visited + {path};
      if path !in disk.files {
        return Err(Io(path));
      }
      var file := disk.files[path];
      if file.Unparsable? {
        return Err(Parse(path));
      }
      var value := file.yaml;
      if value.Mapping? && EXTENDS in value.entries {
        var named := value.entries[EXTENDS];
        value := Mapping(value.entries - {EXTENDS});
        if !named.Text? {
          return Err(Parse(path));
        }
        UnvisitedShrinks(disk, path, before);
        var parent := Load(disk.resolve(path, named.s));
        if parent.Err? {
          return parent;
        }
        value := DeepMerge(parent.value, value);
      }
      visited := visited - {path};
      return Ok(value);
    }
  }

  // ---------- the chain of files, told without the loader ----------

  ghost predicate Distinct(c: seq<string>) { forall i, j :: 0 <= i < j < |c| ==> c[i] != c[j] }

  /** Each file names the next one as its parent. */
  ghost predicate IsChain(disk: Disk, c: seq<string>) {
    && c != []
    && forall i :: 0 <= i < |c| - 1 ==> Read(disk, c[i]).Child? && Read(disk, c[i]).parent == c[i + 1]
  }

  function Last(c: seq<string>): string
    requires c != []
  {
    c[|c| - 1]
  }

  /** A chain without repetition that cannot be continued: its last file has no parent, cannot be read, or
      names a file already on the chain. */
  ghost predicate Ended(disk: Disk, c: seq<string>) {
    && IsChain(disk, c) && Distinct(c)
    && (Read(disk, Last(c)).Child? ==> Read(disk, Last(c)).parent in c)
  }

  function Doc(disk: Disk, path: string): Yaml {
    match Read(disk, path)
    case Root(doc) => doc
    case Child(doc, _) => doc
    case _ => Mapping(map[])
  }

  /** The documents of a chain from the last ancestor down to the file itself. */
  function RootFirst(disk: Disk, c: seq<string>): seq<Yaml> {
    seq(|c|, i requires 0 <= i < |c| => Doc(disk, c[|c| - 1 - i]))
  }

  function LeftFold(docs: seq<Yaml>): Yaml
    requires docs != []
  {
    var n := |docs| - 1;
    if n == 0 then docs[0] else Merge(LeftFold(docs[..n]), docs[n])
  }

  function ToSet(c: seq<string>): set<string> { set p | p in c }

  /** What loading the first file of an ended chain has to give. */
  function Outcome(disk: Disk, c: seq<string>): Result
    requires c != []
  {
    match Read(disk, Last(c))
    case Missing => Err(Io(Last(c)))
    case Malformed => Err(Parse(Last(c)))
    case Root(_) => Ok(LeftFold(RootFirst(disk, c)))
    case Child(_, _) => Err(CircularExtends(ToSet(c)))
  }

  lemma {:induction false} LoadFollowsSuffix(disk: Disk, c: seq<string>, i: nat)
    requires Ended(disk, c) && i < |c|
    ensures LoadFrom(disk, c[i], ToSet(c[..i]))
         == if Read(disk, Last(c)).Root? then Ok(LeftFold(RootFirst(disk, c[i..]))) else Outcome(disk, c)
    decreases |c| - i
  {
    assert c[i] !in c[..i];
    if i == |c| - 1 {
      assert ToSet(c[..i]) + {c[i]} == ToSet(c);
      assert RootFirst(disk, c[i..]) == [Doc(disk, c[i])];
    } else {
      assert ToSet(c[..i]) + {c[i]} == ToSet(c[..i + 1]);
      LoadFollowsSuffix(disk, c, i + 1);
      var docs := RootFirst(disk, c[i..]);
      var n := |docs| - 1;
      assert docs[..n] == RootFirst(disk, c[i + 1..]) && docs[n] == Doc(disk, c[i]);
    }
  }

  /** Main result: the loader's answer is the outcome of the chain, for every disk and every ended chain. */
  lemma LoadFollowsChain(disk: Disk, c: seq<string>)
    requires Ended(disk, c)
    ensures LoadFrom(disk, c[0], {}) == Outcome(disk, c)
  {
    LoadFollowsSuffix(disk, c, 0);
    assert c[0..] == c && ToSet(c[..0]) == {};
  }

  lemma ChainGrows(disk: Disk, c: seq<string>, parent: string)
    requires IsChain(disk, c) && Distinct(c)
    requires Read(disk, Last(c)).Child? && Read(disk, Last(c)).parent == parent && parent !in c
    ensures IsChain(disk, c + [parent]) && Distinct(c + [parent])
  {
  }

  function Unwalked(disk: Disk, c: seq<string>): nat
    requires c != []
  {
    |disk.files.Keys - ToSet(c[..|c| - 1])|
  }

  lemma UnwalkedShrinks(disk: Disk, c: seq<string>, parent: string)
    requires c != [] && Distinct(c) && Read(disk, Last(c)).Child?
    ensures Unwalked(disk, c + [parent]) < Unwalked(disk, c)
  {
    var n := |c| - 1;
    assert (c + [parent])[..n + 1] == c == c[..n] + [c[n]];
    assert ToSet(c) == ToSet(c[..n]) + {c[n]};
    assert c[n] !in c[..n];
    UnvisitedShrinks(disk, c[n], ToSet(c[..n]));
  }

  lemma {:induction false} ExtendChain(disk: Disk, c: seq<string>) returns (full: seq<string>)
    requires IsChain(disk, c) && Distinct(c)
    ensures Ended(disk, full) && full[0] == c[0]
    decreases Unwalked(disk, c)
  {
    var link := Read(disk, Last(c));
    if link.Child? && link.parent !in c {
      ChainGrows(disk, c, link.parent);
      UnwalkedShrinks(disk, c, link.parent);
      hide *;
      full := ExtendChain(disk, c + [link.parent]);
    } else {
      full := c;
    }
  }

  ghost predicate EndedFrom(disk: Disk, path: string, c: seq<string>) { Ended(disk, c) && c[0] == path }

  /** Loading always ends; it fails as circular exactly when the chain from the file comes back to a file
      already on it, and succeeds exactly when the chain reaches a readable file with no parent, giving the
      left fold of the documents from that ancestor down. */
  lemma LoadingIsTheChain(disk: Disk, path: string)
    ensures exists c :: EndedFrom(disk, path, c)
    ensures forall c :: EndedFrom(disk, path, c) ==>
      && LoadFrom(disk, path, {}) == Outcome(disk, c)
      && (LoadFrom(disk, path, {}).Ok? <==> Read(disk, Last(c)).Root?)
      && (LoadFrom(disk, path, {}).Err? && LoadFrom(disk, path, {}).error.CircularExtends? <==> Read(disk, Last(c)).Child?)
  {
    var c := ExtendChain(disk, [path]);
    assert EndedFrom(disk, path, c);
    forall c | EndedFrom(disk, path, c) ensures LoadFrom(disk, path, {}) == Outcome(disk, c) {
      LoadFollowsChain(disk, c);
    }
  }

  /** No document that is loaded still has a top-level `extends`. */
  lemma {:induction false} LoadedHasNoExtends(disk: Disk, path: string, visited: set<string>)
    ensures var r := LoadFrom(disk, path, visited);
            r.Ok? && r.value.Mapping? ==> EXTENDS !in r.value.entries
    decreases |disk.files.Keys - visited|
  {
    if path !in visited && Read(disk, path).Child? {
      UnvisitedShrinks(disk, path, visited);
      LoadedHasNoExtends(disk, Read(disk, path).parent, visited + {path});
    }
  }
}
