/** internal/jsonschema/schema.go: flattening the attributes of a JSON schema. */
module JsonSchema {
  import opened Wrappers
  import opened Orders

  /** A value in a properties map: what mapstructure decodes into an attribute, or cannot. */
  datatype Json =
    | Undecodable
    | Property(Title: string, Type: string, Format: string, Properties: map<string, Json>)

  datatype Attribute = Attribute(ID: string, Title: string, Type: string, Format: string)

  datatype Error = ParsingAttribute(id: string) | NotFound(id: string)

  type Props = map<string, Json>

  /** Names from the top of the schema down to a property. */
  type Path = seq<string>

  /** The property at the end of a path. */
  function At(props: Props, path: Path): Option<Json>
    decreases |path|
  {
    if path == [] || path[0] !in props then None
    else if |path| == 1 then Some(props[path[0]])
    else if props[path[0]].Undecodable? then None
    else At(props[path[0]].Properties, path[1..])
  }

  predicate IsNode(props: Props, path: Path) {
    At(props, path).Some?
  }

  /** The entry for one property: those with properties of their own are of type object. */
  function Entry(props: Props, path: Path): Attribute
    requires IsNode(props, path)
  {
    var id := path[|path| - 1];
    match At(props, path).value
    case Undecodable => Attribute(id, "", "", "")
    case Property(title, typ, format, properties) =>
      if properties != map[] then Attribute(id, "", "object", "") else Attribute(id, title, typ, format)
  }

  /** Field by field: a property keeps its own title, type and format, unless it has properties. */
  lemma EntryIs(props: Props, path: Path)
    requires IsNode(props, path) && At(props, path).value.Property?
    ensures var e, node := Entry(props, path), At(props, path).value;
            && e.ID == path[|path| - 1]
            && (node.Properties == map[] ==> e.Title == node.Title && e.Type == node.Type && e.Format == node.Format)
            && (node.Properties != map[] ==> e.Title == "" && e.Type == "object" && e.Format == "")
  {
  }

  ghost predicate Decodable(props: Props) {
    forall path | IsNode(props, path) :: At(props, path).value.Property?
  }

  predicate Under(path: Path, other: Path) {
    path <= other
  }

  /** Everything from an entry to any property under it is under it too. */
  ghost predicate Contiguous(paths: seq<Path>) {
    forall i, k, j | 0 <= i <= k <= j < |paths| :: Under(paths[i], paths[j]) ==> Under(paths[i], paths[k])
  }

  ghost predicate NoneBefore(paths: seq<Path>) {
    forall i, j | 0 <= j < i < |paths| :: !Under(paths[i], paths[j])
  }

  /** Whatever is under an entry comes right after it, and nothing before it is under it. */
  ghost predicate SubtreesFollow(paths: seq<Path>) {
    Contiguous(paths) && NoneBefore(paths)
  }

  /** The list has exactly one entry for every property at any depth, each followed by its subtree. */
  ghost predicate Flattens(props: Props, attrs: seq<Attribute>, paths: seq<Path>) {
    && |attrs| == |paths|
    && (forall i | 0 <= i < |paths| :: IsNode(props, paths[i]) && attrs[i] == Entry(props, paths[i]))
    && (forall path | IsNode(props, path) :: path in paths)
    && Distinct(paths)
    && SubtreesFollow(paths)
  }

  function Prefixed(id: string, paths: seq<Path>): seq<Path> {
    seq(|paths|, i requires 0 <= i < |paths| => [id] + paths[i])
  }

  // ---------------------------------------------------------------- adding one property

  lemma AtAdded(props: Props, id: string, node: Json, path: Path)
    requires id !in props
    ensures At(props[id := node], path) ==
      if path == [] || path[0] != id then At(props, path)
      else if |path| == 1 then Some(node)
      else if node.Undecodable? then None
      else At(node.Properties, path[1..])
  {
  }

  /** The entries of the properties seen so far, one new property, and what is under it. */
  lemma AddProperty(props: Props, attrs: seq<Attribute>, paths: seq<Path>, id: string, node: Json,
                    attrs1: seq<Attribute>, paths1: seq<Path>)
    requires Flattens(props, attrs, paths) && id !in props && node.Property?
    requires Flattens(node.Properties, attrs1, paths1)
    ensures var all := props[id := node];
            && IsNode(all, [id])
            && Flattens(all, attrs + [Entry(all, [id])] + attrs1, paths + [[id]] + Prefixed(id, paths1))
  {
    var all := props[id := node];
    var attrs' := attrs + [Entry(all, [id])] + attrs1;
    var paths' := paths + [[id]] + Prefixed(id, paths1);
    AddedEntries(props, attrs, paths, id, node, attrs1, paths1);
    AddedCovers(props, attrs, paths, id, node, attrs1, paths1);
    AddedOrder(props, attrs, paths, id, node, attrs1, paths1);
  }

  lemma AddedEntries(props: Props, attrs: seq<Attribute>, paths: seq<Path>, id: string, node: Json,
                     attrs1: seq<Attribute>, paths1: seq<Path>)
    requires Flattens(props, attrs, paths) && id !in props && node.Property?
    requires Flattens(node.Properties, attrs1, paths1)
    ensures var all := props[id := node];
            var attrs' := attrs + [Entry(all, [id])] + attrs1;
            var paths' := paths + [[id]] + Prefixed(id, paths1);
            forall i | 0 <= i < |paths'| :: IsNode(all, paths'[i]) && attrs'[i] == Entry(all, paths'[i])
  {
    var all := props[id := node];
    var attrs' := attrs + [Entry(all, [id])] + attrs1;
    var paths' := paths + [[id]] + Prefixed(id, paths1);
    forall i | 0 <= i < |paths'| ensures IsNode(all, paths'[i]) && attrs'[i] == Entry(all, paths'[i]) {
      AtAdded(props, id, node, paths'[i]);
      if i > |paths| {
        var p := paths1[i - |paths| - 1];
        assert IsNode(node.Properties, p) && p != [];
        assert paths'[i] == [id] + p && paths'[i][1..] == p;
      }
    }
  }

  lemma AddedCovers(props: Props, attrs: seq<Attribute>, paths: seq<Path>, id: string, node: Json,
                    attrs1: seq<Attribute>, paths1: seq<Path>)
    requires Flattens(props, attrs, paths) && id !in props && node.Property?
    requires Flattens(node.Properties, attrs1, paths1)
    ensures forall path | IsNode(props[id := node], path) :: path in paths + [[id]] + Prefixed(id, paths1)
  {
    var all := props[id := node];
    var paths' := paths + [[id]] + Prefixed(id, paths1);
    forall path | IsNode(all, path) ensures path in paths' {
      AtAdded(props, id, node, path);
      if path[0] == id {
        if |path| == 1 {
          assert path == [id];
          assert paths'[|paths|] == [id];
        } else {
          assert IsNode(node.Properties, path[1..]);
          var i :| 0 <= i < |paths1| && paths1[i] == path[1..];
          assert paths'[|paths| + 1 + i] == [id] + path[1..] == path;
        }
      }
    }
  }

  lemma AddedOrder(props: Props, attrs: seq<Attribute>, paths: seq<Path>, id: string, node: Json,
                   attrs1: seq<Attribute>, paths1: seq<Path>)
    requires Flattens(props, attrs, paths) && id !in props && node.Property?
    requires Flattens(node.Properties, attrs1, paths1)
    ensures Distinct(paths + [[id]] + Prefixed(id, paths1))
    ensures SubtreesFollow(paths + [[id]] + Prefixed(id, paths1))
  {
    var right := Rooted(id, paths1);
    NodesAreNotEmpty(node.Properties, paths1);
    RootedDistinct(id, paths1);
    RootedContiguous(id, paths1);
    RootedNoneBefore(id, paths1);
    ApartFromRooted(props, paths, id, paths1);
    ConcatContiguous(paths, right);
    ConcatNoneBefore(paths, right);
    assert paths + right == paths + [[id]] + Prefixed(id, paths1);
  }

  lemma NodesAreNotEmpty(props: Props, paths: seq<Path>)
    requires forall i | 0 <= i < |paths| :: IsNode(props, paths[i])
    ensures forall i | 0 <= i < |paths| :: paths[i] != []
  {
    forall i | 0 <= i < |paths| ensures paths[i] != [] {
      assert IsNode(props, paths[i]);
    }
  }

  lemma ApartFromRooted(props: Props, paths: seq<Path>, id: string, paths1: seq<Path>)
    requires id !in props && forall i | 0 <= i < |paths| :: IsNode(props, paths[i])
    ensures Apart(paths, Rooted(id, paths1))
  {
    var right := Rooted(id, paths1);
    forall i, j | 0 <= i < |paths| && 0 <= j < |right|
      ensures !Under(paths[i], right[j]) && !Under(right[j], paths[i])
    {
      assert IsNode(props, paths[i]);
      assert paths[i][0] != id && right[j][0] == id;
    }
  }

  function Rooted(id: string, paths: seq<Path>): seq<Path> {
    [[id]] + Prefixed(id, paths)
  }

  lemma RootedUnder(id: string, paths: seq<Path>, i: nat, j: nat)
    requires i < |paths| && j < |paths|
    ensures Rooted(id, paths)[i + 1] == [id] + paths[i]
    ensures Under(Rooted(id, paths)[i + 1], Rooted(id, paths)[j + 1]) <==> Under(paths[i], paths[j])
  {
    PrefixUnderCons(id, paths[i], paths[j]);
  }

  lemma RootedDistinct(id: string, paths: seq<Path>)
    requires Distinct(paths) && forall i | 0 <= i < |paths| :: paths[i] != []
    ensures Distinct(Rooted(id, paths))
  {
    var rooted := Rooted(id, paths);
    forall i, j | 0 <= i < j < |rooted| ensures rooted[i] != rooted[j] {
      assert rooted[j] == [id] + paths[j - 1] && rooted[j][1..] == paths[j - 1];
      if i > 0 {
        assert rooted[i] == [id] + paths[i - 1] && rooted[i][1..] == paths[i - 1];
      }
    }
  }

  lemma RootIsAbove(id: string, paths: seq<Path>, k: nat)
    requires k < |Rooted(id, paths)|
    ensures Under(Rooted(id, paths)[0], Rooted(id, paths)[k])
  {
    assert Rooted(id, paths)[k][0] == id;
  }

  lemma BelowRootContiguous(id: string, paths: seq<Path>, i: nat, k: nat, j: nat)
    requires Contiguous(paths) && i <= k <= j < |paths|
    requires Under(Rooted(id, paths)[i + 1], Rooted(id, paths)[j + 1])
    ensures Under(Rooted(id, paths)[i + 1], Rooted(id, paths)[k + 1])
  {
    RootedUnder(id, paths, i, j);
    RootedUnder(id, paths, i, k);
    assert Under(paths[i], paths[j]);
  }

  /** A root and, right after it, the list of what is under it. */
  lemma RootedContiguous(id: string, paths: seq<Path>)
    requires Contiguous(paths)
    ensures Contiguous(Rooted(id, paths))
  {
    var rooted := Rooted(id, paths);
    forall i, k, j | 0 <= i <= k <= j < |rooted| && Under(rooted[i], rooted[j]) ensures Under(rooted[i], rooted[k]) {
      if i == 0 {
        RootIsAbove(id, paths, k);
      } else {
        BelowRootContiguous(id, paths, i - 1, k - 1, j - 1);
      }
    }
  }

  lemma RootedNoneBefore(id: string, paths: seq<Path>)
    requires NoneBefore(paths) && forall i | 0 <= i < |paths| :: paths[i] != []
    ensures NoneBefore(Rooted(id, paths))
  {
    var rooted := Rooted(id, paths);
    forall i, j | 0 <= j < i < |rooted| ensures !Under(rooted[i], rooted[j]) {
      assert rooted[i] == [id] + paths[i - 1];
      if j > 0 {
        RootedUnder(id, paths, i - 1, j - 1);
      } else {
        assert |rooted[i]| > |rooted[j]|;
      }
    }
  }

  /** Nothing in either list is under an entry of the other. */
  ghost predicate Apart(left: seq<Path>, right: seq<Path>) {
    forall i, j | 0 <= i < |left| && 0 <= j < |right| :: !Under(left[i], right[j]) && !Under(right[j], left[i])
  }

  lemma ConcatContiguous(left: seq<Path>, right: seq<Path>)
    requires Contiguous(left) && Contiguous(right) && Apart(left, right)
    ensures Contiguous(left + right)
  {
    var n, all := |left|, left + right;
    forall i, k, j | 0 <= i <= k <= j < |all| ensures Under(all[i], all[j]) ==> Under(all[i], all[k]) {
      if j < n {
        assert Under(left[i], left[j]) ==> Under(left[i], left[k]);
      } else if i >= n {
        assert Under(right[i - n], right[j - n]) ==> Under(right[i - n], right[k - n]);
      } else {
        assert !Under(left[i], right[j - n]);
      }
    }
  }

  lemma ConcatNoneBefore(left: seq<Path>, right: seq<Path>)
    requires Distinct(left) && Distinct(right) && NoneBefore(left) && NoneBefore(right) && Apart(left, right)
    ensures Distinct(left + right) && NoneBefore(left + right)
  {
    var n, all := |left|, left + right;
    forall i, j | 0 <= j < i < |all| ensures !Under(all[i], all[j]) && all[i] != all[j] {
      if i < n {
        assert !Under(left[i], left[j]) && left[j] != left[i];
      } else if j >= n {
        assert !Under(right[i - n], right[j - n]) && right[j - n] != right[i - n];
      } else {
        assert !Under(right[i - n], left[j]);
      }
    }
  }

  lemma PrefixUnderCons(id: string, p: Path, q: Path)
    ensures Under([id] + p, [id] + q) <==> Under(p, q)
  {
    if Under(p, q) {
      assert q == p + q[|p|..];
      assert [id] + q == ([id] + p) + q[|p|..];
    }
    if Under([id] + p, [id] + q) {
      assert ([id] + q)[1..] == q && ([id] + p)[1..] == p;
      assert [id] + q == ([id] + p) + ([id] + q)[|p| + 1..];
      assert q == p + ([id] + q)[|p| + 1..];
    }
  }

  // ---------------------------------------------------------------- the code

  /** The map is visited in any order; node is the property these are the properties of. */
  method ProcessProperties(props: Props, ghost node: Json)
    returns (r: Result<seq<Attribute>, Error>, ghost paths: seq<Path>)
    requires node.Property? && node.Properties == props
    ensures r.Ok? <==> Decodable(props)
    ensures r.Err? ==> r.error.ParsingAttribute? && exists path :: IsUndecodable(props, path, r.error.id)
    ensures r.Ok? ==> Flattens(props, r.value, paths)
    decreases node
  {
    var attrs: seq<Attribute> := [];
    paths := [];
    var left := props.Keys;
    ghost var seen: Props := map[];
    while left != {}
      invariant left <= props.Keys
      invariant seen == map k | k in props && k !in left :: props[k]
      invariant Decodable(seen) && Flattens(seen, attrs, paths)
      decreases left
    {
      var id :| id in left;
      left := left - {id};
      var prop := props[id];
      assert At(props, [id]) == Some(prop);
      if prop.Undecodable? {
        assert IsUndecodable(props, [id], id);
        return Err(ParsingAttribute(id)), [];
      }
      var attr := Attribute(id, prop.Title, prop.Type, prop.Format);
      ghost var seen' := seen[id := prop];
      assert seen' == map k | k in props && k !in left :: props[k];
      var attrs1: seq<Attribute> := [];
      ghost var paths1: seq<Path> := [];
      if prop.Properties != map[] {
        attr := Attribute(id, "", "object", "");
        var r1, below := ProcessProperties(prop.Properties, prop);
        if r1.Err? {
          assert !Decodable(props) by { UndecodableBelow(props, id); }
          NamedBelow(props, id, r1.error.id);
          return Err(r1.error), [];
        }
        attrs1, paths1 := r1.value, below;
      } else {
        assert Flattens(prop.Properties, [], []);
      }
      AddProperty(seen, attrs, paths, id, prop, attrs1, paths1);
      AddDecodable(seen, id, prop);
      attrs := attrs + [attr] + attrs1;
      paths := paths + [[id]] + Prefixed(id, paths1);
      seen := seen';
    }
    assert seen == props;
    return Ok(attrs), paths;
  }

  /** The property at the end of this path has this name and cannot be decoded. */
  predicate IsUndecodable(props: Props, path: Path, id: string) {
    IsNode(props, path) && path[|path| - 1] == id && At(props, path).value.Undecodable?
  }

  lemma NamedBelow(props: Props, id: string, name: string)
    requires id in props && props[id].Property? && exists path :: IsUndecodable(props[id].Properties, path, name)
    ensures exists path :: IsUndecodable(props, path, name)
  {
    var path :| IsUndecodable(props[id].Properties, path, name);
    assert path != [] && ([id] + path)[1..] == path;
    assert At(props, [id] + path) == At(props[id].Properties, path);
    assert IsUndecodable(props, [id] + path, name);
  }

  lemma UndecodableBelow(props: Props, id: string)
    requires id in props && props[id].Property? && !Decodable(props[id].Properties)
    ensures !Decodable(props)
  {
    var path :| IsNode(props[id].Properties, path) && !At(props[id].Properties, path).value.Property?;
    assert path != [] && ([id] + path)[1..] == path;
    assert At(props, [id] + path) == At(props[id].Properties, path);
  }

  lemma AddDecodable(props: Props, id: string, node: Json)
    requires Decodable(props) && id !in props && node.Property? && Decodable(node.Properties)
    ensures Decodable(props[id := node])
  {
    var all := props[id := node];
    forall path | IsNode(all, path) ensures At(all, path).value.Property? {
      AtAdded(props, id, node, path);
      assert path[0] != id ==> IsNode(props, path);
    }
  }

  method FindIndexForSchemaAttribute(attributes: seq<Attribute>, name: string) returns (index: int)
    ensures index == -1 || 0 <= index < |attributes|
    ensures index == -1 ==> forall i | 0 <= i < |attributes| :: attributes[i].ID != name
    ensures index >= 0 ==> attributes[index].ID == name && forall i | 0 <= i < index :: attributes[i].ID != name
  {
    for i := 0 to |attributes|
      invariant forall j | 0 <= j < i :: attributes[j].ID != name
    {
      if attributes[i].ID == name {
        return i;
      }
    }
    return -1;
  }

  predicate Named(props: Props, path: Path, id: string) {
    IsNode(props, path) && path[|path| - 1] == id
  }

  /** Succeeds exactly when the schema decodes and some property has the id; the answer is the
      entry of such a property, so it does not depend on the order when there is just one. */
  method AttributeByID(props: Props, id: string) returns (r: Result<Attribute, Error>)
    ensures r.Ok? <==> Decodable(props) && exists path :: Named(props, path, id)
    ensures r.Ok? ==> exists path :: Named(props, path, id) && r.value == Entry(props, path)
    ensures r.Ok? ==> r.value.ID == id
    ensures r.Err? ==> (r.error.NotFound? <==> Decodable(props)) && (r.error.NotFound? ==> r.error.id == id)
    ensures r.Err? && r.error.ParsingAttribute? ==> exists path :: IsUndecodable(props, path, r.error.id)
    ensures r.Ok? && (forall p, q | Named(props, p, id) && Named(props, q, id) :: p == q) ==>
      forall path | Named(props, path, id) :: r.value == Entry(props, path)
  {
    var attrs, paths := ProcessProperties(props, Property("", "", "", props));
    if attrs.Err? {
      return Err(attrs.error);
    }
    var i := FindIndexForSchemaAttribute(attrs.value, id);
    forall k | 0 <= k < |paths| ensures Named(props, paths[k], attrs.value[k].ID) {
      assert IsNode(props, paths[k]);
    }
    if i < 0 {
      forall path ensures !Named(props, path, id) {
        if IsNode(props, path) {
          var k :| 0 <= k < |paths| && paths[k] == path;
        }
      }
      return Err(NotFound(id));
    }
    assert Named(props, paths[i], id);
    return Ok(attrs.value[i]);
  }

  // ---------------------------------------------------------------- order of the map

  function EntryAt(props: Props): Path -> seq<Attribute> {
    path => if IsNode(props, path) then [Entry(props, path)] else []
  }

  lemma {:induction false} EntriesAre(props: Props, attrs: seq<Attribute>, paths: seq<Path>)
    requires |attrs| == |paths|
    requires forall i | 0 <= i < |paths| :: IsNode(props, paths[i]) && attrs[i] == Entry(props, paths[i])
    ensures attrs == Collect(EntryAt(props), paths)
  {
    if paths != [] {
      var n := |paths| - 1;
      EntriesAre(props, attrs[..n], paths[..n]);
      assert attrs == attrs[..n] + [attrs[n]];
    }
  }

  /** Two iterations over the same schema list the same attributes, each as often. */
  lemma FlatteningIsUnique(props: Props, a: seq<Attribute>, p: seq<Path>, b: seq<Attribute>, q: seq<Path>)
    requires Flattens(props, a, p) && Flattens(props, b, q)
    ensures multiset(a) == multiset(b) && |a| == |b|
  {
    EntriesAre(props, a, p);
    EntriesAre(props, b, q);
    forall x ensures x in p <==> x in q {
      if x in p { assert IsNode(props, x); }
      if x in q { assert IsNode(props, x); }
    }
    OrderDoesNotMatter(EntryAt(props), p, q);
    assert |a| == |multiset(a)| == |multiset(b)| == |b|;
  }
}
