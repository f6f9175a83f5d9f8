// Patching a Business Config: which dotted keys a patch touches, and the deep merge that applies it
// (business_config/writer.py).
module ConfigPatch {
  import opened Common
  import opened Json

  // A JSON object.
  type Tree = t: Json | t.Mapping? witness Mapping(map[])

  const EDITABLE_FIELDS := {
    "display_name",
    "business_logic" + "." + "persona",
    "business_logic" + "." + "tone",
    "business_logic" + "." + "scope_instructions",
    "business_logic" + "." + "out_of_scope_response",
    "tools",
    "llm" + "." + "provider",
    "llm" + "." + "model"}

  /* ---------- The two recursions ---------- */

  function EntryKeys(patch: Tree, key: string, prefix: string): set<string>
    requires key in patch.fields
    decreases patch, 0
  {
    if patch.fields[key].Mapping? && prefix + key != "tools" then PatchKeys(patch.fields[key], prefix + key + ".")
    else {prefix + key}
  }

  function PatchKeys(patch: Tree, prefix: string): set<string>
    decreases patch, 1
  {
    set key, dotted | key in patch.fields && dotted in EntryKeys(patch, key, prefix) :: dotted
  }

  function MergedEntry(base: Tree, patch: Tree, key: string): Json
    requires key in patch.fields
    decreases patch, 0
  {
    if patch.fields[key].Mapping? && key in base.fields && base.fields[key].Mapping?
    then Merge(base.fields[key], patch.fields[key])
    else patch.fields[key]
  }

  function Merge(base: Tree, patch: Tree): Tree
    decreases patch, 1
  {
    Mapping(map key | key in base.fields.Keys + patch.fields.Keys ::
              if key in patch.fields then MergedEntry(base, patch, key) else base.fields[key])
  }

  // The keys collected, and the fields merged, once the entries in `done` are dealt with.
  ghost function KeysOf(patch: Tree, prefix: string, done: set<string>): set<string> {
    set key, dotted | key in patch.fields && key in done && dotted in EntryKeys(patch, key, prefix) :: dotted
  }

  ghost function FieldsOf(base: Tree, patch: Tree, done: set<string>): map<string, Json>
    requires done <= patch.fields.Keys
  {
    map key | key in base.fields.Keys + done :: if key in done then MergedEntry(base, patch, key) else base.fields[key]
  }

  lemma FieldsStep(base: Tree, patch: Tree, done: set<string>, key: string)
    requires done <= patch.fields.Keys && key in patch.fields && key !in done
    ensures FieldsOf(base, patch, done + {key}) == FieldsOf(base, patch, done)[key := MergedEntry(base, patch, key)]
    ensures key in FieldsOf(base, patch, done) <==> key in base.fields
    ensures key in base.fields ==> FieldsOf(base, patch, done)[key] == base.fields[key]
  {
  }

  lemma AllFields(base: Tree, patch: Tree)
    ensures Mapping(FieldsOf(base, patch, patch.fields.Keys)) == Merge(base, patch)
  {
    assert FieldsOf(base, patch, patch.fields.Keys) == Merge(base, patch).fields;
  }

  method CollectPatchKeys(patch: Tree, prefix: string) returns (keys: set<string>)
    ensures keys == PatchKeys(patch, prefix)
    decreases patch
  {
    keys := {};
    var left := patch.fields.Keys;
    while left != {}
      invariant left <= patch.fields.Keys
      invariant keys == KeysOf(patch, prefix, patch.fields.Keys - left)
      decreases |left|
    {
      var key :| key in left;
      var value, dotted := patch.fields[key], prefix + key;
      var added := {dotted};
      if value.Mapping? && dotted != "tools" {
        added := CollectPatchKeys(value, dotted + ".");
      }
      assert added == EntryKeys(patch, key, prefix);
      assert patch.fields.Keys - (left - {key}) == (patch.fields.Keys - left) + {key};
      assert KeysOf(patch, prefix, patch.fields.Keys - left + {key}) == keys + added;
      keys := keys + added;
      left := left - {key};
    }
    assert keys == KeysOf(patch, prefix, patch.fields.Keys);
  }

  method DeepMerge(base: Tree, patch: Tree) returns (merged: Tree)
    ensures merged == Merge(base, patch)
    decreases patch
  {
    var fields := base.fields;
    var left := patch.fields.Keys;
    while left != {}
      invariant left <= patch.fields.Keys
      invariant fields == FieldsOf(base, patch, patch.fields.Keys - left)
      decreases |left|
    {
      var key :| key in left;
      var value := patch.fields[key];
      ghost var done := patch.fields.Keys - left;
      assert patch.fields.Keys - (left - {key}) == done + {key};
      FieldsStep(base, patch, done, key);
      if value.Mapping? && key in fields && fields[key].Mapping? {
        value := DeepMerge(fields[key], value);
      }
      fields := fields[key := value];
      left := left - {key};
    }
    merged := Mapping(fields);
    assert patch.fields.Keys - left == patch.fields.Keys;
    AllFields(base, patch);
  }

  /* ---------- The tree seen path by path ---------- */

  type Path = seq<string>

  datatype Node = Nothing | Branch | Leaf(value: Json)

  function NodeAt(t: Json, path: Path): Node {
    if path == [] then (if t.Mapping? then Branch else Leaf(t))
    else if t.Mapping? && path[0] in t.fields then NodeAt(t.fields[path[0]], path[1..])
    else Nothing
  }

  // The patch decides a path when it has a value there, or a leaf somewhere above it.
  predicate Decides(patch: Json, path: Path) {
    NodeAt(patch, path) != Nothing || exists i :: 0 <= i < |path| && NodeAt(patch, path[..i]).Leaf?
  }

  lemma DecidesDown(patch: Tree, path: Path)
    requires path != [] && path[0] in patch.fields
    ensures Decides(patch, path) <==> Decides(patch.fields[path[0]], path[1..])
  {
    var sub := patch.fields[path[0]];
    forall i | 1 <= i <= |path|
      ensures NodeAt(patch, path[..i]) == NodeAt(sub, path[1..][..i - 1])
    {
      assert path[..i][1..] == path[1..][..i - 1];
    }
    if i :| 0 <= i < |path| && NodeAt(patch, path[..i]).Leaf? {
      assert i > 0 && NodeAt(sub, path[1..][..i - 1]).Leaf?;
    }
    if i :| 0 <= i < |path[1..]| && NodeAt(sub, path[1..][..i]).Leaf? {
      assert NodeAt(patch, path[..i + 1]).Leaf?;
    }
  }

  lemma LeafDecidesBelow(v: Json, path: Path)
    requires !v.Mapping?
    ensures Decides(v, path)
  {
    assert path[..0] == [];
  }

  lemma UndecidedAboveMissing(patch: Tree, path: Path)
    requires path != [] && path[0] !in patch.fields
    ensures !Decides(patch, path)
  {
    forall i | 0 <= i < |path| ensures !NodeAt(patch, path[..i]).Leaf? { }
  }

  // At every path the merged tree is the patch's where the patch decides, and the base's elsewhere.
  lemma {:induction false} MergeIsPathwise(base: Tree, patch: Tree, path: Path)
    ensures NodeAt(Merge(base, patch), path) == if Decides(patch, path) then NodeAt(patch, path) else NodeAt(base, path)
    decreases |path|
  {
    if path != [] {
      var key := path[0];
      if key !in patch.fields {
        UndecidedAboveMissing(patch, path);
      } else {
        var value := patch.fields[key];
        DecidesDown(patch, path);
        if !value.Mapping? {
          LeafDecidesBelow(value, path[1..]);
        } else if key in base.fields && base.fields[key].Mapping? {
          MergeIsPathwise(base.fields[key], value, path[1..]);
        } else {
          UndecidedInBranch(value, path[1..]);
          UnderALeaf(base, path);
        }
      }
    }
  }

  lemma {:induction false} UndecidedInBranch(value: Tree, path: Path)
    ensures !Decides(value, path) ==> NodeAt(value, path) == Nothing && path != []
  {
  }

  lemma UnderALeaf(base: Tree, path: Path)
    requires path != [] && (path[0] !in base.fields || !base.fields[path[0]].Mapping?)
    ensures |path| > 1 || path[0] !in base.fields ==> NodeAt(base, path) == Nothing
  {
  }

  // The nodes at all paths are the whole tree.
  lemma {:induction false} SameNodesSameTree(a: Json, b: Json)
    requires forall path :: NodeAt(a, path) == NodeAt(b, path)
    ensures a == b
    decreases a
  {
    assert NodeAt(a, []) == NodeAt(b, []);
    if a.Mapping? {
      forall key
        ensures key in a.fields <==> key in b.fields
        ensures key in a.fields && key in b.fields ==> a.fields[key] == b.fields[key]
      {
        assert NodeAt(a, [key]) == NodeAt(b, [key]);
        assert [key][1..] == [];
        if key in a.fields && key in b.fields {
          forall path
            ensures NodeAt(a.fields[key], path) == NodeAt(b.fields[key], path)
          {
            assert NodeAt(a, [key] + path) == NodeAt(b, [key] + path);
            assert ([key] + path)[1..] == path;
          }
          SameNodesSameTree(a.fields[key], b.fields[key]);
        }
      }
      assert a.fields == b.fields;
    }
  }

  lemma MergeWithSelf(t: Tree)
    ensures Merge(t, t) == t
  {
    forall path ensures NodeAt(Merge(t, t), path) == NodeAt(t, path) {
      MergeIsPathwise(t, t, path);
    }
    SameNodesSameTree(Merge(t, t), t);
  }

  // Applying a patch twice is applying it once.
  lemma PatchTwice(base: Tree, patch: Tree)
    ensures Merge(Merge(base, patch), patch) == Merge(base, patch)
  {
    var once := Merge(base, patch);
    forall path ensures NodeAt(Merge(once, patch), path) == NodeAt(once, path) {
      MergeIsPathwise(once, patch, path);
      MergeIsPathwise(base, patch, path);
    }
    SameNodesSameTree(Merge(once, patch), once);
  }

  /* ---------- What the collected keys say about the paths a patch sets ---------- */

  const EDITABLE_PATHS: seq<Path> := [
    ["display_name"], ["business_logic", "persona"], ["business_logic", "tone"],
      ["business_logic", "scope_instructions"],
    ["business_logic", "out_of_scope_response"], ["tools"], ["llm", "provider"], ["llm", "model"]]

  predicate HasEditablePrefix(path: Path) {
    exists i :: 0 <= i <= |path| && path[..i] in EDITABLE_PATHS
  }

  predicate DotFree(path: Path) {
    forall i :: 0 <= i < |path| ==> '.' !in path[i]
  }

  // No key of the tree contains a dot.
  ghost predicate DotFreeTree(t: Json) {
    forall path :: NodeAt(t, path) != Nothing ==> DotFree(path)
  }

  function Dotted(path: Path): string
    requires path != []
  {
    if |path| == 1 then path[0] else path[0] + "." + Dotted(path[1..])
  }

  lemma {:induction false} LeafIsCollected(patch: Tree, path: Path, prefix: string)
    requires path != [] && NodeAt(patch, path).Leaf?
    requires prefix == "" ==> path[0] != "tools"
    requires prefix == "" || (prefix[|prefix| - 1] == '.')
    ensures prefix + Dotted(path) in PatchKeys(patch, prefix)
    decreases |path|
  {
    var key := path[0];
    var value := patch.fields[key];
    if |path| == 1 {
      assert prefix + key in EntryKeys(patch, key, prefix);
    } else {
      var inner := prefix + key + ".";
      NotTools(prefix, key);
      LeafIsCollected(value, path[1..], inner);
      assert inner + Dotted(path[1..]) == prefix + Dotted(path);
      assert inner + Dotted(path[1..]) in EntryKeys(patch, key, prefix);
    }
  }

  lemma NotTools(prefix: string, key: string)
    requires prefix == "" ==> key != "tools"
    requires prefix == "" || prefix[|prefix| - 1] == '.'
    ensures prefix + key != "tools"
  {
    if prefix == "" {
      assert prefix + key == key;
    } else {
      assert (prefix + key)[|prefix| - 1] == '.';
      assert '.' !in "tools";
    }
  }

  // Joining dot-free keys with dots loses nothing.
  lemma {:induction false} DottedIsInjective(p: Path, q: Path)
    requires p != [] && q != [] && DotFree(p) && DotFree(q) && Dotted(p) == Dotted(q)
    ensures p == q
    decreases |p|
  {
    var d := Dotted(p);
    FirstKey(p);
    FirstKey(q);
    assert forall i :: 0 <= i < |p[0]| ==> p[0][i] == d[i];
    assert forall i :: 0 <= i < |q[0]| ==> q[0][i] == d[i];
    assert |p[0]| == |q[0]|;
    assert p[0] == d[..|p[0]|] == q[0];
    if |p| == 1 || |q| == 1 {
      assert |d| == |p[0]|;
      assert |p| == |q| == 1;
    } else {
      assert Dotted(p[1..]) == d[|p[0]| + 1..] == Dotted(q[1..]);
      assert DotFree(p[1..]) && DotFree(q[1..]);
      DottedIsInjective(p[1..], q[1..]);
      assert p == [p[0]] + p[1..] && q == [q[0]] + q[1..];
    }
  }

  lemma FirstKey(p: Path)
    requires p != []
    ensures |p[0]| <= |Dotted(p)| && Dotted(p)[..|p[0]|] == p[0]
    ensures if |p| == 1 then |Dotted(p)| == |p[0]|
            else |Dotted(p)| > |p[0]| && Dotted(p)[|p[0]|] == '.' && Dotted(p)[|p[0]| + 1..] == Dotted(p[1..])
  {
  }

  lemma Join2(a: string, b: string)
    ensures Dotted([a, b]) == a + "." + b
  {
    assert [a, b][1..] == [b];
  }

  // Every editable field is spelled by an editable path.
  lemma FieldIsAPath(field: string) returns (p: Path)
    requires field in EDITABLE_FIELDS
    ensures p in EDITABLE_PATHS && p != [] && DotFree(p) && Dotted(p) == field
  {
    Join2("business_logic", "persona");
    Join2("business_logic", "tone");
    Join2("business_logic", "scope_instructions");
    Join2("business_logic", "out_of_scope_response");
    Join2("llm", "provider");
    Join2("llm", "model");
    var i: nat :=
      if field == "display_name" then 0
      else if field == "business_logic" + "." + "persona" then 1
      else if field == "business_logic" + "." + "tone" then 2
      else if field == "business_logic" + "." + "scope_instructions" then 3
      else if field == "business_logic" + "." + "out_of_scope_response" then 4
      else if field == "tools" then 5
      else if field == "llm" + "." + "provider" then 6
      else 7;
    p := EDITABLE_PATHS[i];
    EditablePathsAreDotFree(i);
  }

  lemma EditablePathsAreDotFree(i: nat)
    requires i < |EDITABLE_PATHS|
    ensures DotFree(EDITABLE_PATHS[i])
  {
    NamesAreDotFree();
  }

  lemma NamesAreDotFree()
    ensures '.' !in "display_name" && '.' !in "business_logic" && '.' !in "persona" && '.' !in "tone"
    ensures '.' !in "scope_instructions" && '.' !in "out_of_scope_response" && '.' !in "tools" && '.' !in "llm"
    ensures '.' !in "provider" && '.' !in "model"
  {
  }

  predicate Permitted(patch: Tree) {
    PatchKeys(patch, "") <= EDITABLE_FIELDS
  }

  lemma DotFreeIsEditable(patch: Tree, path: Path)
    requires Permitted(patch) && DotFree(path) && NodeAt(patch, path).Leaf?
    ensures HasEditablePrefix(path)
  {
    if path[0] == "tools" {
      assert path[..1] == ["tools"] == EDITABLE_PATHS[5];
    } else {
      LeafIsCollected(patch, path, "");
      assert "" + Dotted(path) == Dotted(path);
      var p := FieldIsAPath(Dotted(path));
      DottedIsInjective(p, path);
      assert path[..|path|] == path;
    }
  }

  // A leaf a permitted, dot-free patch sets lies at or below an editable path.
  lemma PermittedLeafIsEditable(patch: Tree, path: Path)
    requires Permitted(patch) && DotFreeTree(patch) && NodeAt(patch, path).Leaf?
    ensures HasEditablePrefix(path)
  {
    DotFreeIsEditable(patch, path);
  }

  /* ---------- Which patches are permitted ---------- */

  // What a patch is asked about: every leaf outside `tools`, and `tools` as a whole.
  predicate Asks(patch: Tree, path: Path) {
    if path == ["tools"] then "tools" in patch.fields
    else path != [] && path[0] != "tools" && NodeAt(patch, path).Leaf?
  }

  // A key collected below `prefix` is the dotted path of a leaf, or of the tools at the top.
  lemma {:induction false} CollectedIsALeaf(patch: Tree, prefix: string, dotted: string) returns (path: Path)
    requires dotted in PatchKeys(patch, prefix) && (prefix == "" || prefix[|prefix| - 1] == '.')
    ensures path != [] && dotted == prefix + Dotted(path)
    ensures if prefix == "" then Asks(patch, path) else NodeAt(patch, path).Leaf?
    decreases patch
  {
    var key :| key in patch.fields && dotted in EntryKeys(patch, key, prefix);
    var value := patch.fields[key];
    if value.Mapping? && prefix + key != "tools" {
      var below := CollectedIsALeaf(value, prefix + key + ".", dotted);
      path := [key] + below;
      assert path[1..] == below && prefix + key + "." + Dotted(below) == prefix + Dotted(path);
      assert NodeAt(patch, path) == NodeAt(value, below);
      if prefix == "" { assert "" + key == key; }
    } else {
      path := [key];
      assert path[1..] == [];
      if prefix == "" {
        assert "" + key == key;
      } else {
        NotTools(prefix, key);
      }
    }
  }

  // The collected keys are exactly the dotted paths of what the patch is asked about.
  lemma CollectedExactly(patch: Tree, dotted: string)
    ensures dotted in PatchKeys(patch, "") <==> exists path :: Asks(patch, path) && Dotted(path) == dotted
  {
    if dotted in PatchKeys(patch, "") {
      var path := CollectedIsALeaf(patch, "", dotted);
      assert "" + Dotted(path) == Dotted(path);
    }
    if path :| Asks(patch, path) && Dotted(path) == dotted {
      AskedIsCollected(patch, path);
    }
  }

  lemma AskedIsCollected(patch: Tree, path: Path)
    requires Asks(patch, path)
    ensures Dotted(path) in PatchKeys(patch, "")
  {
    if path == ["tools"] {
      assert "" + "tools" == "tools";
      assert "tools" in EntryKeys(patch, "tools", "");
    } else {
      LeafIsCollected(patch, path, "");
      assert "" + Dotted(path) == Dotted(path);
    }
  }

  // A patch is permitted exactly when each leaf outside `tools` spells an editable field.
  ghost predicate SpellsEditable(patch: Tree) {
    forall path :: path != [] && path[0] != "tools" && NodeAt(patch, path).Leaf? ==> Dotted(path) in EDITABLE_FIELDS
  }

  lemma PermittedExactly(patch: Tree)
    ensures Permitted(patch) <==> SpellsEditable(patch)
  {
    if Permitted(patch) {
      forall path | path != [] && path[0] != "tools" && NodeAt(patch, path).Leaf?
        ensures Dotted(path) in EDITABLE_FIELDS
      {
        AskedIsCollected(patch, path);
      }
    }
    if SpellsEditable(patch) {
      forall dotted | dotted in PatchKeys(patch, "") ensures dotted in EDITABLE_FIELDS {
        CollectedExactly(patch, dotted);
        var path :| Asks(patch, path) && Dotted(path) == dotted;
      }
    }
  }

  // The eight fields an owner edits, as paths.
  predicate IsEditable(path: Path) {
    || path == ["display_name"]
    || path == ["business_logic", "persona"]
    || path == ["business_logic", "tone"]
    || path == ["business_logic", "scope_instructions"]
    || path == ["business_logic", "out_of_scope_response"]
    || path == ["llm", "provider"]
    || path == ["llm", "model"]
    || (path != [] && path[0] == "tools")
  }

  lemma EditableIsSpelled(path: Path)
    requires IsEditable(path) && path[0] != "tools"
    ensures Dotted(path) in EDITABLE_FIELDS
  {
    Join2("business_logic", "persona");
    Join2("business_logic", "tone");
    Join2("business_logic", "scope_instructions");
    Join2("business_logic", "out_of_scope_response");
    Join2("llm", "provider");
    Join2("llm", "model");
  }

  ghost predicate EditsOnlyTheEight(patch: Tree) {
    forall path :: NodeAt(patch, path).Leaf? ==> IsEditable(path)
  }

  // An ordinary edit - every value it sets sits at one of the eight fields - is permitted; and without dotted keys no
  // other is.
  lemma OrdinaryEditExactly(patch: Tree)
    ensures EditsOnlyTheEight(patch) ==> Permitted(patch)
    ensures DotFreeTree(patch) ==> (Permitted(patch) <==> EditsOnlyTheEight(patch))
  {
    PermittedExactly(patch);
    if EditsOnlyTheEight(patch) {
      forall path | path != [] && path[0] != "tools" && NodeAt(patch, path).Leaf?
        ensures Dotted(path) in EDITABLE_FIELDS
      {
        EditableIsSpelled(path);
      }
    }
    if DotFreeTree(patch) && Permitted(patch) {
      forall path | NodeAt(patch, path).Leaf? ensures IsEditable(path) {
        if path[0] != "tools" {
          var p := FieldIsAPath(Dotted(path));
          DottedIsInjective(p, path);
        }
      }
    }
  }

  /* ---------- The frame of a patch ---------- */

  function LeafAt(t: Json, path: Path): Option<Json> {
    var node := NodeAt(t, path);
    if node.Leaf? then Some(node.value) else None
  }

  // No leaf outside the editable paths changes.
  ghost predicate KeepsTheRest(base: Tree, patch: Tree) {
    forall path :: !HasEditablePrefix(path) ==> LeafAt(Merge(base, patch), path) == LeafAt(base, path)
  }

  // Outside the editable paths the patch never puts a mapping where the base has a plain value.
  ghost predicate NeverBuriesALeaf(base: Tree, patch: Tree) {
    forall path :: !HasEditablePrefix(path) && NodeAt(patch, path) == Branch ==> !NodeAt(base, path).Leaf?
  }

  lemma EditableBelow(path: Path, i: nat)
    requires i <= |path| && HasEditablePrefix(path[..i])
    ensures HasEditablePrefix(path)
  {
    var k :| 0 <= k <= i && path[..i][..k] in EDITABLE_PATHS;
    assert path[..i][..k] == path[..k];
  }

  // Outside the editable paths the patch sets no value but the base's own.
  ghost predicate RewritesNothing(base: Tree, patch: Tree) {
    forall path :: !HasEditablePrefix(path) && NodeAt(patch, path).Leaf? ==> NodeAt(base, path) == NodeAt(patch, path)
  }

  lemma FrameAtPath(base: Tree, patch: Tree, path: Path)
    requires NeverBuriesALeaf(base, patch) && RewritesNothing(base, patch) && !HasEditablePrefix(path)
    ensures LeafAt(Merge(base, patch), path) == LeafAt(base, path)
  {
    MergeIsPathwise(base, patch, path);
    if i :| 0 <= i < |path| && NodeAt(patch, path[..i]).Leaf? {
      if HasEditablePrefix(path[..i]) {
        EditableBelow(path, i);
      }
      NothingBelowALeaf(base, path, i);
      NothingBelowALeaf(patch, path, i);
    }
  }

  lemma {:induction false} NothingBelowALeaf(t: Json, path: Path, i: nat)
    requires i < |path| && NodeAt(t, path[..i]).Leaf?
    ensures NodeAt(t, path) == Nothing
    decreases i
  {
    if i > 0 {
      assert path[..i][1..] == path[1..][..i - 1];
      NothingBelowALeaf(t.fields[path[0]], path[1..], i - 1);
    }
  }

  // Any merge leaves everything outside the editable paths alone exactly when, there, the patch neither puts
  // a mapping over a plain value nor sets a value of its own.
  lemma FrameExactly(base: Tree, patch: Tree)
    ensures KeepsTheRest(base, patch) <==> NeverBuriesALeaf(base, patch) && RewritesNothing(base, patch)
  {
    if KeepsTheRest(base, patch) {
      forall path | !HasEditablePrefix(path)
        ensures NodeAt(patch, path) == Branch ==> !NodeAt(base, path).Leaf?
        ensures NodeAt(patch, path).Leaf? ==> NodeAt(base, path) == NodeAt(patch, path)
      {
        MergeIsPathwise(base, patch, path);
        assert LeafAt(Merge(base, patch), path) == LeafAt(base, path);
      }
    }
    if NeverBuriesALeaf(base, patch) && RewritesNothing(base, patch) {
      forall path | !HasEditablePrefix(path)
        ensures LeafAt(Merge(base, patch), path) == LeafAt(base, path)
      {
        FrameAtPath(base, patch, path);
      }
    }
  }

  ghost predicate SetsEditableOnly(patch: Tree) {
    forall path :: NodeAt(patch, path).Leaf? ==> HasEditablePrefix(path)
  }

  // A permitted patch over a base without dotted keys leaves everything outside the editable paths alone
  // exactly when it buries no plain value there and every value it sets lies at or below an editable path.
  lemma PermittedFrameExactly(base: Tree, patch: Tree)
    requires Permitted(patch) && DotFreeTree(base)
    ensures KeepsTheRest(base, patch) <==> NeverBuriesALeaf(base, patch) && SetsEditableOnly(patch)
  {
    FrameExactly(base, patch);
    if RewritesNothing(base, patch) {
      forall path | NodeAt(patch, path).Leaf?
        ensures HasEditablePrefix(path)
      {
        if !HasEditablePrefix(path) {
          assert NodeAt(base, path) != Nothing;
          DotFreeIsEditable(patch, path);
        }
      }
    }
  }

  // A permitted patch that has no dotted keys itself sets editable values only, so burying decides alone.
  lemma DotFreeFrameExactly(base: Tree, patch: Tree)
    requires Permitted(patch) && DotFreeTree(patch)
    ensures KeepsTheRest(base, patch) <==> NeverBuriesALeaf(base, patch)
  {
    FrameExactly(base, patch);
    forall path | NodeAt(patch, path).Leaf?
      ensures HasEditablePrefix(path)
    {
      PermittedLeafIsEditable(patch, path);
    }
  }

  ghost predicate HasChild(t: Json, path: Path) {
    exists key :: NodeAt(t, path + [key]) != Nothing
  }

  ghost predicate NoEmptyMapping(t: Json) {
    forall path :: NodeAt(t, path) == Branch ==> HasChild(t, path)
  }

  // In particular: no empty mapping in the patch, and `llm` and `business_logic` mappings in the base.
  lemma FrameOfAnOrdinaryPatch(base: Tree, patch: Tree)
    requires Permitted(patch) && DotFreeTree(patch)
    requires NoEmptyMapping(patch)
    requires NodeAt(base, ["llm"]) == Branch && NodeAt(base, ["business_logic"]) == Branch
    ensures KeepsTheRest(base, patch)
  {
    forall path | !HasEditablePrefix(path) && NodeAt(patch, path) == Branch
      ensures !NodeAt(base, path).Leaf?
    {
      var leaf := LeafBelow(patch, path);
      PermittedLeafIsEditable(patch, leaf);
      EditableCut(leaf, path);
    }
    DotFreeFrameExactly(base, patch);
  }

  lemma EditableCut(leaf: Path, path: Path)
    requires HasEditablePrefix(leaf) && |path| <= |leaf| && leaf[..|path|] == path
    ensures HasEditablePrefix(path) || path == [] || path == ["llm"] || path == ["business_logic"]
  {
    var k :| 0 <= k <= |leaf| && leaf[..k] in EDITABLE_PATHS;
    if k <= |path| {
      assert leaf[..k] == path[..k];
    } else {
      assert path == leaf[..k][..|path|];
      ProperPrefixes(leaf[..k], |path|);
    }
  }

  lemma ProperPrefixes(p: Path, n: nat)
    requires p in EDITABLE_PATHS && n < |p|
    ensures p[..n] == [] || p[..n] == ["llm"] || p[..n] == ["business_logic"]
  {
  }

  function Subtree(t: Json, path: Path): Json
    requires NodeAt(t, path) != Nothing
  {
    if path == [] then t else Subtree(t.fields[path[0]], path[1..])
  }

  lemma {:induction false} SubtreeNode(t: Json, path: Path, key: string)
    requires NodeAt(t, path) != Nothing
    ensures NodeAt(t, path) == if Subtree(t, path).Mapping? then Branch else Leaf(Subtree(t, path))
    ensures NodeAt(t, path + [key]) != Nothing ==>
              Subtree(t, path).Mapping? && key in Subtree(t, path).fields
              && Subtree(t, path + [key]) == Subtree(t, path).fields[key]
    decreases |path|
  {
    if path == [] {
      assert path + [key] == [key] && [key][1..] == [];
    } else {
      assert (path + [key])[1..] == path[1..] + [key];
      SubtreeNode(t.fields[path[0]], path[1..], key);
    }
  }

  lemma ChildBelow(t: Tree, path: Path) returns (key: string)
    requires NoEmptyMapping(t) && NodeAt(t, path) == Branch
    ensures NodeAt(t, path + [key]) != Nothing
    ensures Subtree(t, path).Mapping? && key in Subtree(t, path).fields
    ensures Subtree(t, path + [key]) == Subtree(t, path).fields[key]
  {
    assert HasChild(t, path);
    key :| NodeAt(t, path + [key]) != Nothing;
    SubtreeNode(t, path, key);
  }

  lemma PrefixOfChild(leaf: Path, path: Path, key: string)
    requires |path| < |leaf| && leaf[..|path| + 1] == path + [key]
    ensures leaf[..|path|] == path
  {
    assert leaf[..|path|] == leaf[..|path| + 1][..|path|];
  }

  // Below every branch of a tree without empty mappings there is a leaf.
  lemma {:induction false} LeafBelow(t: Tree, path: Path) returns (leaf: Path)
    requires NoEmptyMapping(t)
    requires NodeAt(t, path) != Nothing
    ensures |path| <= |leaf| && leaf[..|path|] == path && NodeAt(t, leaf).Leaf?
    decreases Subtree(t, path)
  {
    if NodeAt(t, path) == Branch {
      var key := ChildBelow(t, path);
      leaf := LeafBelow(t, path + [key]);
      PrefixOfChild(leaf, path, key);
    } else {
      leaf := path;
    }
  }

  lemma DotFreeFromTop(t: Tree)
    requires forall key :: key in t.fields ==> '.' !in key && DotFreeTree(t.fields[key])
    ensures DotFreeTree(t)
  {
    forall path | NodeAt(t, path) != Nothing
      ensures DotFree(path)
    {
      if path != [] {
        assert NodeAt(t.fields[path[0]], path[1..]) != Nothing;
        assert DotFree(path[1..]);
        assert path == [path[0]] + path[1..];
      }
    }
  }

  // {"storage": {"columns": {}}}
  function EmptyColumns(): Tree {
    var empty: Tree := Mapping(map[]);
    var inner: Tree := Mapping(map["columns" := empty]);
    Mapping(map["storage" := inner])
  }

  lemma EmptyColumnsCollectNothing()
    ensures PatchKeys(EmptyColumns(), "") == {}
  {
    var empty: Tree := Mapping(map[]);
    var inner: Tree := Mapping(map["columns" := empty]);
    assert PatchKeys(empty, "storage" + "." + "columns" + ".") == {};
    assert EntryKeys(inner, "columns", "storage" + ".") == {} by { NotTools("storage.", "columns"); }
    assert PatchKeys(inner, "storage" + ".") == {};
    assert EntryKeys(EmptyColumns(), "storage", "") == {} by {
      assert "" + "storage" == "storage" && "storage"[0] != "tools"[0];
    }
  }

  lemma EmptyColumnsAreDotFree()
    ensures DotFreeTree(EmptyColumns())
  {
    var empty: Tree := Mapping(map[]);
    var inner: Tree := Mapping(map["columns" := empty]);
    DotFreeFromTop(empty);
    DotFreeFromTop(inner);
    DotFreeFromTop(EmptyColumns());
  }

  lemma StorageIsNotEditable(path: Path)
    requires path == ["storage", "columns"]
    ensures !HasEditablePrefix(path)
  {
    assert path[..0] == [] && path[..1] == ["storage"] && path[..2] == path;
    assert forall p :: p in EDITABLE_PATHS ==> p != [] && p[0] != "storage";
  }

  // An empty mapping collects no keys, so it is permitted, yet it buries an immutable value.
  lemma EmptyMappingSlipsThrough(base: Tree, storage: Tree)
    requires "storage" in base.fields && base.fields["storage"] == storage
    requires "columns" in storage.fields && storage.fields["columns"] == Null
    ensures Permitted(EmptyColumns()) && DotFreeTree(EmptyColumns()) && !KeepsTheRest(base, EmptyColumns())
  {
    hide PatchKeys, HasEditablePrefix, DotFreeTree, KeepsTheRest;
    EmptyColumnsCollectNothing();
    EmptyColumnsAreDotFree();
    var path := ["storage", "columns"];
    StorageIsNotEditable(path);
    assert path[1..] == ["columns"] && ["columns"][1..] == [];
    assert NodeAt(EmptyColumns(), path) == Branch;
    assert NodeAt(base, path) == NodeAt(storage, ["columns"]) == NodeAt(Null, []) == Leaf(Null);
    FrameExactly(base, EmptyColumns());
  }

  // A key containing a dot passes for the editable path it spells, and sets another one.
  lemma DottedKeySlipsThrough(base: Tree, key: string, value: string)
    requires key == "llm" + "." + "provider" && key !in base.fields
    ensures var patch: Tree := Mapping(map[key := Str(value)]);
            Permitted(patch) && !KeepsTheRest(base, patch)
  {
    var patch: Tree := Mapping(map[key := Str(value)]);
    assert "" + key == key;
    assert EntryKeys(patch, key, "") == {key};
    var path := [key];
    assert path[1..] == [];
    MergeIsPathwise(base, patch, path);
    assert LeafAt(Merge(base, patch), path) == Some(Str(value)) && LeafAt(base, path) == None;
    assert !HasEditablePrefix(path) by {
      assert path[..0] == [] && path[..1] == path;
      assert key[3] == '.';
      forall i | 0 <= i < |EDITABLE_PATHS|
        ensures EDITABLE_PATHS[i] != [] && EDITABLE_PATHS[i] != path
      {
        EditablePathsAreDotFree(i);
      }
    }
  }

  /* ---------- Rewriting the file ---------- */

  // A leaf of the patch spells this field, which is not one an owner may edit.
  ghost predicate OffendsAt(patch: Tree, field: string) {
    field !in EDITABLE_FIELDS && exists path :: Asks(patch, path) && Dotted(path) == field
  }

  datatype PatchError = Immutable(fields: set<string>) | Unloadable | Invalid

  // The Business Config file of one Business. `load` parses, validates and fills in defaults; `valid`
  // is the schema.
  class ConfigFile {
    const load: Json -> Option<Tree>
    const valid: Json -> bool
    var raw: Json

    constructor (load: Json -> Option<Tree>, valid: Json -> bool, raw: Json)
      ensures this.load == load && this.valid == valid && this.raw == raw
    {
      this.load, this.valid, this.raw := load, valid, raw;
    }

    method Update(patch: Tree) returns (result: Result<Tree, PatchError>)
      modifies this
      ensures result.Failure? ==> raw == old(raw)
      ensures result.Failure? && result.error.Immutable? <==> !SpellsEditable(patch)
      ensures result.Failure? && result.error.Immutable? ==>
                forall field :: field in result.error.fields <==> OffendsAt(patch, field)
      ensures result == Failure(Unloadable) <==> SpellsEditable(patch) && load(old(raw)) == None
      ensures result == Failure(Invalid) <==>
              SpellsEditable(patch) && load(old(raw)).Some? && !valid(Merge(load(old(raw)).value, patch))
      ensures result.Success? <==>
              SpellsEditable(patch) && load(old(raw)).Some? && valid(Merge(load(old(raw)).value, patch))
      ensures result.Success? ==> raw == result.value == Merge(load(old(raw)).value, patch)
      ensures result.Success? && DotFreeTree(load(old(raw)).value) ==>
                var base := load(old(raw)).value;
                (forall path :: !HasEditablePrefix(path) ==> LeafAt(raw, path) == LeafAt(base, path))
                <==> NeverBuriesALeaf(base, patch) && SetsEditableOnly(patch)
    {
      var keys := CollectPatchKeys(patch, "");
      var disallowed := keys - EDITABLE_FIELDS;
      PermittedExactly(patch);
      if disallowed != {} {
        assert !Permitted(patch);
        forall field ensures field in disallowed <==> OffendsAt(patch, field) {
          CollectedExactly(patch, field);
        }
        return Failure(Immutable(disallowed));
      }
      assert Permitted(patch) by {
        forall key | key in keys ensures key in EDITABLE_FIELDS { assert key !in disallowed; }
      }
      var current := load(raw);
      if current == None {
        return Failure(Unloadable);
      }
      var merged := DeepMerge(current.value, patch);
      if !valid(merged) {
        return Failure(Invalid);
      }
      if DotFreeTree(current.value) { PermittedFrameExactly(current.value, patch); }
      raw := merged;
      return Success(merged);
    }
  }
}
