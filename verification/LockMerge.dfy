/** Three-way merge of parsed dvc.lock documents (src/runner/dvc_lock_merge.py). */
module LockMerge {
  import opened Prelude

  /** YAML data after conversion to plain dictionaries, lists and scalars. */
  datatype Plain = Null | Scalar(text: string) | Items(items: seq<Plain>) | Mapping(entries: map<string, Plain>)

  /** An insertion-ordered dictionary. */
  datatype Section = Section(keys: seq<string>, entries: map<string, Plain>)

  ghost predicate ValidSection(s: Section) {
    NoDup(s.keys) && forall k :: k in s.keys <==> k in s.entries
  }

  const EMPTY := Section([], map[])

  function Put(s: Section, k: string, v: Plain): Section {
    Section(if k in s.entries then s.keys else s.keys + [k], s.entries[k := v])
  }

  lemma PutNew(s: Section, k: string, v: Plain)
    requires ValidSection(s) && k !in s.entries
    ensures ValidSection(Put(s, k, v)) && Put(s, k, v).keys == s.keys + [k]
    ensures forall x :: Lookup(Put(s, k, v).entries, x) == if x == k then Some(v) else Lookup(s.entries, x)
  {
    assert k !in s.keys;
  }

  /** The `stages` entry of a document: missing or empty, not a dictionary, or a dictionary. */
  datatype Stages = Absent | Malformed | Present(section: Section)

  /** A document: its stages and its other top-level keys. */
  datatype Document = Document(stages: Stages, root: Section)

  ghost predicate ValidDocument(d: Document) {
    (d.stages.Present? ==> ValidSection(d.stages.section)) && ValidSection(d.root)
  }

  function StagesOf(d: Document): Section {
    if d.stages.Present? then d.stages.section else EMPTY
  }

  // ---------------------------------------------------------------- what a merge means at one key

  datatype Choice = Keep(value: Option<Plain>) | Clash

  /** Equal sides, or one side unchanged from the base; absence is a value. */
  function Resolve(o: Option<Plain>, a: Option<Plain>, b: Option<Plain>): Choice {
    if a == b || b == o then Keep(a) else if a == o then Keep(b) else Clash
  }

  function ResolveAt(o: map<string, Plain>, a: map<string, Plain>, b: map<string, Plain>, k: string): Choice {
    Resolve(Lookup(o, k), Lookup(a, k), Lookup(b, k))
  }

  predicate Survives(o: map<string, Plain>, a: map<string, Plain>, b: map<string, Plain>, k: string) {
    ResolveAt(o, a, b, k).Keep? && ResolveAt(o, a, b, k).value.Some?
  }

  /** The keys that survive, in the order listed, leaving out those in `skip`. */
  function Survivors(o: map<string, Plain>, a: map<string, Plain>, b: map<string, Plain>,
                     keys: seq<string>, skip: map<string, Plain>): seq<string> {
    if keys == [] then []
    else
      var last := keys[|keys| - 1];
      Survivors(o, a, b, keys[..|keys| - 1], skip)
      + (if last !in skip && Survives(o, a, b, last) then [last] else [])
  }

  /** `m` is the pointwise merge: every key resolves, and `m` holds what it resolves to. */
  ghost predicate IsMerge(o: map<string, Plain>, a: map<string, Plain>, b: map<string, Plain>, m: map<string, Plain>) {
    forall k :: ResolveAt(o, a, b, k) == Keep(Lookup(m, k))
  }

  // ---------------------------------------------------------------- the merge of the stages

  datatype SectionResult = Merged(section: Section) | ClashOn(key: string)

  ghost predicate StageMergeSpec(o: Section, a: Section, b: Section, r: SectionResult) {
    match r
    case ClashOn(k) => ResolveAt(o.entries, a.entries, b.entries, k).Clash?
    case Merged(m) =>
      && ValidSection(m)
      && IsMerge(o.entries, a.entries, b.entries, m.entries)
      && m.keys == Survivors(o.entries, a.entries, b.entries, a.keys, map[])
                 + Survivors(o.entries, a.entries, b.entries, b.keys, a.entries)
  }

  /** What one of the two loops has put into the result after visiting `seen`. */
  ghost predicate LoopState(o: Section, a: Section, b: Section, seen: set<string>, m: Section) {
    && ValidSection(m)
    && (forall k :: k in seen ==> ResolveAt(o.entries, a.entries, b.entries, k) == Keep(Lookup(m.entries, k)))
    && (forall k :: k in m.entries ==> k in seen)
  }

  function Extend(m: Section, name: string, value: Option<Plain>): Section {
    if value.Some? then Put(m, name, value.value) else m
  }

  lemma VisitKey(o: Section, a: Section, b: Section, seen: set<string>, m: Section, name: string, value: Option<Plain>)
    requires LoopState(o, a, b, seen, m) && name !in seen
    requires ResolveAt(o.entries, a.entries, b.entries, name) == Keep(value)
    ensures LoopState(o, a, b, seen + {name}, Extend(m, name, value))
    ensures Extend(m, name, value).keys == m.keys + (if value.Some? then [name] else [])
  {
    assert name !in m.entries;
    if value.Some? {
      PutNew(m, name, value.value);
    }
  }

  function KeySet(keys: seq<string>): set<string> {
    set k | k in keys
  }

  /** Invariant of both loops: the keys in `skip` and the first `i` of `keys` are decided, and
      `m` lists `ours` followed by the survivors among those `i`. */
  ghost predicate LoopInvariant(o: Section, a: Section, b: Section, keys: seq<string>, skip: map<string, Plain>,
                                ours: seq<string>, m: Section, i: nat)
    requires i <= |keys|
  {
    && LoopState(o, a, b, skip.Keys + KeySet(keys[..i]), m)
    && m.keys == ours + Survivors(o.entries, a.entries, b.entries, keys[..i], skip)
  }

  lemma NextKey(o: Section, a: Section, b: Section, keys: seq<string>, skip: map<string, Plain>, i: nat)
    requires i < |keys| && NoDup(keys) && keys[i] !in skip
    ensures keys[i] !in skip.Keys + KeySet(keys[..i])
    ensures skip.Keys + KeySet(keys[..i + 1]) == skip.Keys + KeySet(keys[..i]) + {keys[i]}
    ensures Survivors(o.entries, a.entries, b.entries, keys[..i + 1], skip)
         == Survivors(o.entries, a.entries, b.entries, keys[..i], skip)
            + (if Survives(o.entries, a.entries, b.entries, keys[i]) then [keys[i]] else [])
  {
    assert keys[..i + 1] == keys[..i] + [keys[i]] && keys[..i + 1][..i] == keys[..i];
  }

  lemma LoopStep(o: Section, a: Section, b: Section, keys: seq<string>, skip: map<string, Plain>,
                 ours: seq<string>, m: Section, i: nat, value: Option<Plain>)
    requires i < |keys| && NoDup(keys) && LoopInvariant(o, a, b, keys, skip, ours, m, i)
    requires keys[i] !in skip && ResolveAt(o.entries, a.entries, b.entries, keys[i]) == Keep(value)
    ensures LoopInvariant(o, a, b, keys, skip, ours, Extend(m, keys[i], value), i + 1)
  {
    NextKey(o, a, b, keys, skip, i);
    VisitKey(o, a, b, skip.Keys + KeySet(keys[..i]), m, keys[i], value);
  }

  lemma LoopSkip(o: Section, a: Section, b: Section, keys: seq<string>, skip: map<string, Plain>,
                 ours: seq<string>, m: Section, i: nat)
    requires i < |keys| && LoopInvariant(o, a, b, keys, skip, ours, m, i) && keys[i] in skip
    ensures LoopInvariant(o, a, b, keys, skip, ours, m, i + 1)
  {
    assert keys[..i + 1] == keys[..i] + [keys[i]] && keys[..i + 1][..i] == keys[..i];
    assert skip.Keys + KeySet(keys[..i + 1]) == skip.Keys + KeySet(keys[..i]);
  }

  /** A key of ours, decided the way the first loop decides it. */
  method DecideOurs(o: Section, a: Section, b: Section, name: string) returns (c: Choice)
    requires name in a.entries
    ensures c == ResolveAt(o.entries, a.entries, b.entries, name)
  {
    var aVal := a.entries[name];
    if name in o.entries {
      var aChanged := aVal != o.entries[name];
      if name in b.entries {
        var bVal := b.entries[name];
        var bChanged := bVal != o.entries[name];
        if !bChanged {
          c := Keep(Some(aVal));
        } else if !aChanged {
          c := Keep(Some(bVal));
        } else if aVal == bVal {
          c := Keep(Some(aVal));
        } else {
          c := Clash;
        }
      } else if !aChanged {
        c := Keep(None);
      } else {
        c := Clash;
      }
    } else if name in b.entries {
      c := if aVal == b.entries[name] then Keep(Some(aVal)) else Clash;
    } else {
      c := Keep(Some(aVal));
    }
  }

  /** A key only they have. */
  method DecideTheirs(o: Section, a: Section, b: Section, name: string) returns (c: Choice)
    requires name in b.entries && name !in a.entries
    ensures c == ResolveAt(o.entries, a.entries, b.entries, name)
  {
    if name in o.entries {
      c := if b.entries[name] == o.entries[name] then Keep(None) else Clash;
    } else {
      c := Keep(Some(b.entries[name]));
    }
  }

  method MergeOurs(o: Section, a: Section, b: Section) returns (r: SectionResult)
    requires ValidSection(a)
    ensures r.ClashOn? ==> ResolveAt(o.entries, a.entries, b.entries, r.key).Clash?
    ensures r.Merged? ==> LoopInvariant(o, a, b, a.keys, map[], [], r.section, |a.keys|)
  {
    var m := EMPTY;
    for i := 0 to |a.keys|
      invariant LoopInvariant(o, a, b, a.keys, map[], [], m, i)
    {
      var name := a.keys[i];
      var c := DecideOurs(o, a, b, name);
      if c.Clash? {
        return ClashOn(name);
      }
      LoopStep(o, a, b, a.keys, map[], [], m, i, c.value);
      if c.value.Some? {
        m := Put(m, name, c.value.value);
      }
    }
    return Merged(m);
  }

  lemma OursDone(o: Section, a: Section, b: Section, m: Section)
    requires ValidSection(a) && LoopInvariant(o, a, b, a.keys, map[], [], m, |a.keys|)
    ensures LoopInvariant(o, a, b, b.keys, a.entries, m.keys, m, 0)
    ensures m.keys == Survivors(o.entries, a.entries, b.entries, a.keys, map[])
  {
    assert a.keys[..|a.keys|] == a.keys;
    var none: map<string, Plain> := map[];
    assert none.Keys + KeySet(a.keys) == a.entries.Keys + KeySet(b.keys[..0]);
  }

  lemma BothDone(o: Section, a: Section, b: Section, ours: seq<string>, m: Section)
    requires ValidSection(b) && LoopInvariant(o, a, b, b.keys, a.entries, ours, m, |b.keys|)
    ensures ValidSection(m) && IsMerge(o.entries, a.entries, b.entries, m.entries)
    ensures m.keys == ours + Survivors(o.entries, a.entries, b.entries, b.keys, a.entries)
  {
    assert b.keys[..|b.keys|] == b.keys;
    assert a.entries.Keys + KeySet(b.keys) == a.entries.Keys + b.entries.Keys;
  }

  method MergeStages(o: Section, a: Section, b: Section) returns (r: SectionResult)
    requires ValidSection(a) && ValidSection(b)
    ensures StageMergeSpec(o, a, b, r)
  {
    r := MergeOurs(o, a, b);
    if r.ClashOn? {
      return;
    }
    var m := r.section;
    ghost var ours := m.keys;
    OursDone(o, a, b, m);
    for i := 0 to |b.keys|
      invariant LoopInvariant(o, a, b, b.keys, a.entries, ours, m, i)
    {
      var name := b.keys[i];
      if name in m.entries || name in a.entries {
        LoopSkip(o, a, b, b.keys, a.entries, ours, m, i);
        continue;
      }
      var c := DecideTheirs(o, a, b, name);
      if c.Clash? {
        return ClashOn(name);
      }
      LoopStep(o, a, b, b.keys, a.entries, ours, m, i, c.value);
      if c.value.Some? {
        m := Put(m, name, c.value.value);
      }
    }
    BothDone(o, a, b, ours, m);
    return Merged(m);
  }

  // ---------------------------------------------------------------- the other top-level keys

  /** The keys of `b` that `a` lacks, in order. */
  function NewKeys(a: Section, keys: seq<string>): (r: seq<string>)
    ensures forall k :: k in r <==> k in keys && k !in a.entries
  {
    if keys == [] then []
    else
      var last := keys[|keys| - 1];
      assert keys == keys[..|keys| - 1] + [last];
      NewKeys(a, keys[..|keys| - 1]) + (if last in a.entries then [] else [last])
  }

  lemma {:induction false} NewKeysNoDup(a: Section, keys: seq<string>)
    requires NoDup(keys)
    ensures NoDup(NewKeys(a, keys))
  {
    if keys != [] {
      var front, last := keys[..|keys| - 1], keys[|keys| - 1];
      NewKeysNoDup(a, front);
      assert last !in front;
    }
  }

  function AllKeys(a: Section, b: Section): seq<string> {
    a.keys + NewKeys(a, b.keys)
  }

  lemma AllKeysNoDup(a: Section, b: Section)
    requires ValidSection(a) && ValidSection(b)
    ensures NoDup(AllKeys(a, b)) && KeySet(AllKeys(a, b)) == a.entries.Keys + b.entries.Keys
  {
    NewKeysNoDup(a, b.keys);
    var more := NewKeys(a, b.keys);
    forall i, j | 0 <= i < j < |AllKeys(a, b)| ensures AllKeys(a, b)[i] != AllKeys(a, b)[j] {
      if i < |a.keys| <= j {
        assert AllKeys(a, b)[i] in a.keys && AllKeys(a, b)[j] in more;
      }
    }
  }

  /** One top-level key, decided the way the root loop decides it. */
  method DecideRoot(o: Section, a: Section, b: Section, k: string) returns (c: Choice)
    requires k in a.entries || k in b.entries
    ensures c == ResolveAt(o.entries, a.entries, b.entries, k)
  {
    var aHas, bHas, oHas := k in a.entries, k in b.entries, k in o.entries;
    if oHas {
      var base := o.entries[k];
      if aHas && bHas {
        var aMod, bMod := a.entries[k] != base, b.entries[k] != base;
        if !bMod {
          c := Keep(Some(a.entries[k]));
        } else if !aMod {
          c := Keep(Some(b.entries[k]));
        } else {
          c := if a.entries[k] == b.entries[k] then Keep(Some(a.entries[k])) else Clash;
        }
      } else if aHas {
        c := if a.entries[k] == base then Keep(None) else Clash;
      } else {
        c := if b.entries[k] == base then Keep(None) else Clash;
      }
    } else if aHas && bHas {
      c := if a.entries[k] == b.entries[k] then Keep(Some(a.entries[k])) else Clash;
    } else if aHas {
      c := Keep(Some(a.entries[k]));
    } else {
      c := Keep(Some(b.entries[k]));
    }
  }

  /** Once all keys of both sides are decided, the result is the merge. */
  lemma AllDecided(o: Section, a: Section, b: Section, seen: set<string>, m: Section)
    requires LoopState(o, a, b, seen, m) && seen == a.entries.Keys + b.entries.Keys
    ensures IsMerge(o.entries, a.entries, b.entries, m.entries)
  {
  }

  lemma RootDone(o: Section, a: Section, b: Section, keys: seq<string>, m: Section)
    requires KeySet(keys) == a.entries.Keys + b.entries.Keys
    requires LoopInvariant(o, a, b, keys, map[], [], m, |keys|)
    ensures ValidSection(m) && IsMerge(o.entries, a.entries, b.entries, m.entries)
    ensures m.keys == Survivors(o.entries, a.entries, b.entries, keys, map[])
  {
    var none: map<string, Plain> := map[];
    assert keys[..|keys|] == keys;
    var seen := none.Keys + KeySet(keys[..|keys|]);
    assert seen == a.entries.Keys + b.entries.Keys;
    AllDecided(o, a, b, seen, m);
  }

  method MergeRoot(o: Section, a: Section, b: Section) returns (r: SectionResult)
    requires ValidSection(a) && ValidSection(b)
    ensures r.ClashOn? ==> ResolveAt(o.entries, a.entries, b.entries, r.key).Clash?
    ensures r.Merged? ==> ValidSection(r.section) && IsMerge(o.entries, a.entries, b.entries, r.section.entries)
    ensures r.Merged? ==> r.section.keys == Survivors(o.entries, a.entries, b.entries, AllKeys(a, b), map[])
  {
    var keys := AllKeys(a, b);
    assert NoDup(keys) by { AllKeysNoDup(a, b); }
    var m := EMPTY;
    for i := 0 to |keys|
      invariant LoopInvariant(o, a, b, keys, map[], [], m, i)
    {
      var k := keys[i];
      var c := DecideRoot(o, a, b, k);
      if c.Clash? {
        return ClashOn(k);
      }
      LoopStep(o, a, b, keys, map[], [], m, i, c.value);
      if c.value.Some? {
        m := Put(m, k, c.value.value);
      }
    }
    AllKeysNoDup(a, b);
    RootDone(o, a, b, keys, m);
    return Merged(m);
  }

  // ---------------------------------------------------------------- whole documents

  const SCHEMA := "schema"

  datatype DocumentResult =
    | MergedDocument(document: Document)
    | StageClash(key: string)
    | RootClash(key: string)
    | InvalidStages

  function Others(keys: seq<string>): seq<string> {
    if keys == [] then []
    else Others(keys[..|keys| - 1]) + (if keys[|keys| - 1] == SCHEMA then [] else [keys[|keys| - 1]])
  }

  /** `schema` is never dropped: a merged deletion falls back to ours, then to theirs. */
  function SchemaOf(o: Section, a: Section, b: Section): Option<Plain> {
    if Survives(o.entries, a.entries, b.entries, SCHEMA) then ResolveAt(o.entries, a.entries, b.entries, SCHEMA).value
    else if SCHEMA in a.entries then Some(a.entries[SCHEMA])
    else Lookup(b.entries, SCHEMA)
  }

  ghost predicate RootSpec(o: Section, a: Section, b: Section, root: Section) {
    && ValidSection(root)
    && (forall k :: ResolveAt(o.entries, a.entries, b.entries, k).Keep?)
    && (forall k :: k != SCHEMA ==>
          Lookup(root.entries, k) == ResolveAt(o.entries, a.entries, b.entries, k).value)
    && Lookup(root.entries, SCHEMA) == SchemaOf(o, a, b)
    && root.keys == (if SCHEMA in root.entries then [SCHEMA] else [])
                    + Others(Survivors(o.entries, a.entries, b.entries, AllKeys(a, b), map[]))
  }

  ghost predicate MergeSpec(o: Document, a: Document, b: Document, r: DocumentResult) {
    var os, as_, bs := StagesOf(o), StagesOf(a), StagesOf(b);
    match r
    case InvalidStages => o.stages.Malformed? || a.stages.Malformed? || b.stages.Malformed?
    case StageClash(k) => ResolveAt(os.entries, as_.entries, bs.entries, k).Clash?
    case RootClash(k) => ResolveAt(o.root.entries, a.root.entries, b.root.entries, k).Clash?
    case MergedDocument(d) =>
      && d.stages.Present?
      && StageMergeSpec(os, as_, bs, Merged(d.stages.section))
      && RootSpec(o.root, a.root, b.root, d.root)
  }

  /** `root` holds the schema entry and the first `i` other merged keys. */
  ghost predicate Assembled(schema: Section, merged: Section, root: Section, i: nat)
    requires i <= |merged.keys|
  {
    && ValidSection(root)
    && root.keys == schema.keys + Others(merged.keys[..i])
    && (forall k :: k != SCHEMA ==>
          Lookup(root.entries, k) == if k in merged.keys[..i] then Lookup(merged.entries, k) else None)
    && Lookup(root.entries, SCHEMA) == Lookup(schema.entries, SCHEMA)
  }

  lemma AssembleStep(schema: Section, merged: Section, root: Section, i: nat)
    requires ValidSection(merged) && i < |merged.keys| && Assembled(schema, merged, root, i)
    requires merged.keys[i] != SCHEMA
    ensures merged.keys[i] in merged.entries
    ensures Assembled(schema, merged, Put(root, merged.keys[i], merged.entries[merged.keys[i]]), i + 1)
  {
    var k := merged.keys[i];
    var seen := merged.keys[..i];
    assert k in merged.keys && k !in seen;
    assert Lookup(root.entries, k) == None;
    PutNew(root, k, merged.entries[k]);
    assert merged.keys[..i + 1] == seen + [k] && merged.keys[..i + 1][..i] == seen;
  }

  lemma AssembleSchema(schema: Section, merged: Section, root: Section, i: nat)
    requires i < |merged.keys| && Assembled(schema, merged, root, i) && merged.keys[i] == SCHEMA
    ensures Assembled(schema, merged, root, i + 1)
  {
    assert merged.keys[..i + 1] == merged.keys[..i] + [SCHEMA] && merged.keys[..i + 1][..i] == merged.keys[..i];
  }

  lemma AssembledAll(o: Section, a: Section, b: Section, schema: Section, merged: Section, root: Section)
    requires ValidSection(merged) && IsMerge(o.entries, a.entries, b.entries, merged.entries)
    requires merged.keys == Survivors(o.entries, a.entries, b.entries, AllKeys(a, b), map[])
    requires Assembled(schema, merged, root, |merged.keys|)
    requires Lookup(schema.entries, SCHEMA) == SchemaOf(o, a, b)
    requires schema.keys == if SCHEMA in schema.entries then [SCHEMA] else []
    ensures RootSpec(o, a, b, root)
  {
    assert merged.keys[..|merged.keys|] == merged.keys;
    forall k ensures ResolveAt(o.entries, a.entries, b.entries, k) == Keep(Lookup(merged.entries, k)) {}
  }

  /** The final document: schema first, then the other merged keys in their order. */
  method AssembleRoot(o: Section, a: Section, b: Section, merged: Section) returns (root: Section)
    requires ValidSection(merged) && IsMerge(o.entries, a.entries, b.entries, merged.entries)
    requires merged.keys == Survivors(o.entries, a.entries, b.entries, AllKeys(a, b), map[])
    ensures RootSpec(o, a, b, root)
  {
    root := EMPTY;
    if SCHEMA in merged.entries {
      root := Put(root, SCHEMA, merged.entries[SCHEMA]);
    } else if SCHEMA in a.entries {
      root := Put(root, SCHEMA, a.entries[SCHEMA]);
    } else if SCHEMA in b.entries {
      root := Put(root, SCHEMA, b.entries[SCHEMA]);
    }
    assert ResolveAt(o.entries, a.entries, b.entries, SCHEMA) == Keep(Lookup(merged.entries, SCHEMA));
    ghost var schema := root;
    for i := 0 to |merged.keys|
      invariant Assembled(schema, merged, root, i)
    {
      if merged.keys[i] == SCHEMA {
        AssembleSchema(schema, merged, root, i);
      } else {
        AssembleStep(schema, merged, root, i);
        root := Put(root, merged.keys[i], merged.entries[merged.keys[i]]);
      }
    }
    AssembledAll(o, a, b, schema, merged, root);
  }

  /** merge_dvc_lock_data: base, ours and theirs. */
  method MergeDvcLockData(o: Document, a: Document, b: Document) returns (r: DocumentResult)
    requires ValidDocument(a) && ValidDocument(b)
    ensures MergeSpec(o, a, b, r)
    ensures r.InvalidStages? <==> o.stages.Malformed? || a.stages.Malformed? || b.stages.Malformed?
  {
    if o.stages.Malformed? || a.stages.Malformed? || b.stages.Malformed? {
      return InvalidStages;
    }
    var stages := MergeStages(StagesOf(o), StagesOf(a), StagesOf(b));
    if stages.ClashOn? {
      return StageClash(stages.key);
    }
    var top := MergeRoot(o.root, a.root, b.root);
    if top.ClashOn? {
      return RootClash(top.key);
    }
    var root := AssembleRoot(o.root, a.root, b.root, top.section);
    return MergedDocument(Document(Present(stages.section), root));
  }

  /** A conflict is raised exactly when some stage or some other top-level key clashes. */
  lemma ClashIffSomeKeyClashes(o: Document, a: Document, b: Document, r: DocumentResult)
    requires MergeSpec(o, a, b, r) && !r.InvalidStages?
    ensures !r.MergedDocument? <==>
            exists k :: || ResolveAt(StagesOf(o).entries, StagesOf(a).entries, StagesOf(b).entries, k).Clash?
                        || ResolveAt(o.root.entries, a.root.entries, b.root.entries, k).Clash?
  {
  }

  /** The merged document has a schema if and only if one of the two has one, and puts it first. The
      value is the merged one, or, where the merge would delete it, that of the side that kept it. */
  lemma SchemaIsKept(o: Document, a: Document, b: Document, d: Document)
    requires MergeSpec(o, a, b, MergedDocument(d))
    ensures "schema" in d.root.entries <==> "schema" in a.root.entries || "schema" in b.root.entries
    ensures "schema" in d.root.entries ==> d.root.keys != [] && d.root.keys[0] == "schema"
    ensures "schema" in d.root.entries ==>
              || ("schema" in a.root.entries && d.root.entries["schema"] == a.root.entries["schema"])
              || ("schema" in b.root.entries && d.root.entries["schema"] == b.root.entries["schema"])
    ensures "schema" in a.root.entries && "schema" in b.root.entries ==>
              d.root.entries["schema"] == if Lookup(a.root.entries, "schema") == Lookup(o.root.entries, "schema")
                                          then b.root.entries["schema"] else a.root.entries["schema"]
  {
    assert ResolveAt(o.root.entries, a.root.entries, b.root.entries, SCHEMA).Keep?;
  }

  // ---------------------------------------------------------------- the order of the keys

  /** `r` lists some of the keys, in their order. */
  ghost predicate InOrder(r: seq<string>, keys: seq<string>) {
    forall i, j :: 0 <= i < j < |r| ==> Precedes(keys, r[i], r[j])
  }

  ghost predicate Precedes(keys: seq<string>, x: string, y: string) {
    exists i, j :: 0 <= i < j < |keys| && keys[i] == x && keys[j] == y
  }

  lemma PrecedesLater(keys: seq<string>, last: string, x: string, y: string)
    requires Precedes(keys, x, y) || (x in keys && y == last)
    ensures Precedes(keys + [last], x, y)
  {
    var all := keys + [last];
    if Precedes(keys, x, y) {
      var i, j :| 0 <= i < j < |keys| && keys[i] == x && keys[j] == y;
      assert all[i] == x && all[j] == y;
    } else {
      var i :| 0 <= i < |keys| && keys[i] == x;
      assert all[i] == x && all[|keys|] == y;
    }
  }

  lemma OneMoreInOrder(r: seq<string>, keys: seq<string>, last: string, more: seq<string>)
    requires InOrder(r, keys) && (forall k :: k in r ==> k in keys) && (more == [] || more == [last])
    ensures InOrder(r + more, keys + [last])
  {
    var all := r + more;
    forall i, j | 0 <= i < j < |all| ensures Precedes(keys + [last], all[i], all[j]) {
      if j < |r| { assert Precedes(keys, r[i], r[j]); } else { assert all[i] in r; }
      PrecedesLater(keys, last, all[i], all[j]);
    }
  }

  /** The survivors are the listed keys that are not left out and that the merge keeps, in the order
      in which they are listed. */
  lemma {:induction false} SurvivorsInOrder(o: map<string, Plain>, a: map<string, Plain>, b: map<string, Plain>,
                                            keys: seq<string>, skip: map<string, Plain>)
    ensures var r := Survivors(o, a, b, keys, skip);
            && InOrder(r, keys)
            && forall k :: k in r <==> k in keys && k !in skip && Survives(o, a, b, k)
  {
    if keys != [] {
      var front, last := keys[..|keys| - 1], keys[|keys| - 1];
      assert keys == front + [last];
      SurvivorsInOrder(o, a, b, front, skip);
      OneMoreInOrder(Survivors(o, a, b, front, skip), front, last,
                     if last !in skip && Survives(o, a, b, last) then [last] else []);
    }
  }
}
