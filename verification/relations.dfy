/**
 * The JPA relation generator
 * (features/diagrams/components/class-diagram/services/relation-generator.service.ts):
 * turns diagram links into annotation and field lines per class, and remembers
 * which relations it has already emitted across calls.
 */
module Relations {
  import opened Wrappers
  import opened Text

  datatype Relationship = Association | Inheritance | Composition | Aggregation

  function RelationshipName(r: Relationship): string {
    match r
    case Association => "Association"
    case Inheritance => "Inheritance"
    case Composition => "Composition"
    case Aggregation => "Aggregation"
  }

  /** The lookup in `relationshipMap`: only the four listed categories are known. */
  function ParseRelationship(name: Option<string>): (r: Option<Relationship>)
    ensures r.Some? <==>
      name.Some? && name.value in ["Association", "Inheritance", "Composition", "Aggregation"]
    ensures r.Some? ==> RelationshipName(r.value) == name.value
  {
    if name.None? then None
    else if name.value == "Association" then Some(Association)
    else if name.value == "Inheritance" then Some(Inheritance)
    else if name.value == "Composition" then Some(Composition)
    else if name.value == "Aggregation" then Some(Aggregation)
    else None
  }

  /** The `imports` of each relationship's metadata, in order. */
  function Imports(r: Relationship): seq<string> {
    match r
    case Association => ["jakarta.persistence.OneToOne"]
    case Inheritance => ["jakarta.persistence.MappedSuperclass"]
    case Composition => ["jakarta.persistence.OneToMany", "java.util.List", "java.util.ArrayList"]
    case Aggregation => ["jakarta.persistence.ManyToOne"]
  }

  /** A diagram link between two node keys. */
  datatype Link = Link(from: int, to: int, relationship: Option<string>)

  /** `nodes.get(key)` on a `Map<number, string>` kept as its list of entries. */
  function Lookup(nodes: seq<(int, string)>, key: int): (r: Option<string>)
    ensures r.Some? <==> exists i :: 0 <= i < |nodes| && nodes[i].0 == key
    ensures r.Some? ==> exists i :: 0 <= i < |nodes| && nodes[i] == (key, r.value)
  {
    if nodes == [] then None
    else if nodes[0].0 == key then Some(nodes[0].1)
    else
      var r := Lookup(nodes[1..], key);
      if r.Some? then
        ghost var i :| 0 <= i < |nodes[1..]| && nodes[1..][i] == (key, r.value);
        assert nodes[i + 1] == (key, r.value);
        r
      else r
  }

  /** The lines collected so far for a class; a class not yet seen has none. */
  function Lines(rels: map<string, seq<string>>, c: string): seq<string> {
    if c in rels then rels[c] else []
  }

  function Append(rels: map<string, seq<string>>, c: string, lines: seq<string>)
    : (r: map<string, seq<string>>)
    ensures Lines(r, c) == Lines(rels, c) + lines
    ensures r.Keys == rels.Keys + {c}
    ensures forall d :: d != c ==> Lines(r, d) == Lines(rels, d)
  {
    rels[c := Lines(rels, c) + lines]
  }

  /** `formatFieldName`: the first character lower-cased, the rest kept. */
  function FormatFieldName(name: string): (r: string)
    ensures |r| == |name|
    ensures name != [] ==> r[0] == LowerChar(name[0]) && r[1..] == name[1..]
  {
    if name == [] then "" else [LowerChar(name[0])] + name[1..]
  }

  /** `handleInheritance`: the child extends the parent, the parent becomes a mapped superclass. */
  function HandleInheritance(rels: map<string, seq<string>>, child: string, parent: string)
    : (r: map<string, seq<string>>)
    ensures child != parent ==>
      Lines(r, child) == Lines(rels, child) + ["extends " + parent]
      && Lines(r, parent) == Lines(rels, parent) + ["@MappedSuperclass"]
    ensures child == parent ==>
      Lines(r, child) == Lines(rels, child) + ["extends " + parent, "@MappedSuperclass"]
    ensures forall d :: d != child && d != parent ==> Lines(r, d) == Lines(rels, d)
    ensures r.Keys == rels.Keys + {child, parent}
  {
    Append(Append(rels, child, ["extends " + parent]), parent, ["@MappedSuperclass"])
  }

  /** The collection field a composition gives its owner. */
  function CompositionOwnerLines(owner: string, owned: string): seq<string> {
    [ "@OneToMany(mappedBy = \"" + FormatFieldName(owner) + "\", cascade = CascadeType.ALL, orphanRemoval = true)",
      "private List<" + owned + "> " + FormatFieldName(owned) + "s = new ArrayList<>();" ]
  }

  /** The lazy back reference a composition gives the owned class. */
  function CompositionOwnedLines(owner: string): seq<string> {
    [ "@ManyToOne(fetch = FetchType.LAZY)",
      "@JoinColumn(name = \"" + FormatFieldName(owner) + "_id\")",
      "private " + owner + " " + FormatFieldName(owner) + ";" ]
  }

  /** `handleComposition`: two lines for the owner, then three for the owned class. */
  function HandleComposition(rels: map<string, seq<string>>, owner: string, owned: string)
    : (r: map<string, seq<string>>)
    ensures owner != owned ==>
      && Lines(r, owner) == Lines(rels, owner) + CompositionOwnerLines(owner, owned)
      && Lines(r, owned) == Lines(rels, owned) + CompositionOwnedLines(owner)
    ensures owner == owned ==>
      Lines(r, owner) == Lines(rels, owner) + CompositionOwnerLines(owner, owned) + CompositionOwnedLines(owner)
    ensures forall d :: d != owner && d != owned ==> Lines(r, d) == Lines(rels, d)
    ensures r.Keys == rels.Keys + {owner, owned}
  {
    Append(Append(rels, owner, CompositionOwnerLines(owner, owned)), owned, CompositionOwnedLines(owner))
  }

  /** The three lines a many-to-one or one-to-one reference to `target` adds. */
  function ReferenceLines(annotation: string, target: string): seq<string> {
    [ annotation,
      "@JoinColumn(name = \"" + FormatFieldName(target) + "_id\")",
      "private " + target + " " + FormatFieldName(target) + ";" ]
  }

  /** `handleAggregation`: three lines on the aggregate only. */
  function HandleAggregation(rels: map<string, seq<string>>, aggregate: string, part: string)
    : (r: map<string, seq<string>>)
    ensures Lines(r, aggregate) == Lines(rels, aggregate) + ReferenceLines("@ManyToOne", part)
    ensures forall d :: d != aggregate ==> Lines(r, d) == Lines(rels, d)
    ensures r.Keys == rels.Keys + {aggregate}
  {
    Append(rels, aggregate, ReferenceLines("@ManyToOne", part))
  }

  /** `handleAssociation`: three lines on the `from` class only. */
  function HandleAssociation(rels: map<string, seq<string>>, from: string, to: string)
    : (r: map<string, seq<string>>)
    ensures Lines(r, from) == Lines(rels, from) + ReferenceLines("@OneToOne", to)
    ensures forall d :: d != from ==> Lines(r, d) == Lines(rels, d)
    ensures r.Keys == rels.Keys + {from}
  {
    Append(rels, from, ReferenceLines("@OneToOne", to))
  }

  /**
   * The `switch` over the category: the handler only appends, only to the two
   * classes of the relation, and always to the `from` class.
   */
  function Handle(rels: map<string, seq<string>>, rel: Relationship, from: string, to: string)
    : (r: map<string, seq<string>>)
    ensures forall d :: d != from && d != to ==> Lines(r, d) == Lines(rels, d)
    ensures forall d :: |Lines(rels, d)| <= |Lines(r, d)| && Lines(r, d)[..|Lines(rels, d)|] == Lines(rels, d)
    ensures |Lines(r, from)| > |Lines(rels, from)|
  {
    match rel
    case Inheritance => HandleInheritance(rels, from, to)
    case Composition => HandleComposition(rels, from, to)
    case Aggregation => HandleAggregation(rels, from, to)
    case Association => HandleAssociation(rels, from, to)
  }

  /** Every relationship adds at least one line to its `from` class. */
  lemma HandleGrowsFrom(rels: map<string, seq<string>>, rel: Relationship, from: string, to: string)
    ensures |Lines(Handle(rels, rel, from, to), from)| > |Lines(rels, from)|
  {
  }

  /** Adding to a JavaScript `Set`: new members go to the end, present ones stay put. */
  function AddAll(set_: seq<string>, xs: seq<string>): (r: seq<string>)
    ensures |r| >= |set_| && r[..|set_|] == set_
    ensures forall x :: x in r <==> x in set_ || x in xs
    ensures forall k :: |set_| <= k < |r| ==> r[k] in xs && r[k] !in set_
    ensures forall i, j :: |set_| <= i < j < |r| ==> r[i] != r[j]
    decreases |xs|
  {
    if xs == [] then set_
    else if xs[0] in set_ then AddAll(set_, xs[1..])
    else
      var r := AddAll(set_ + [xs[0]], xs[1..]);
      assert r[..|set_|] == (r[..|set_| + 1])[..|set_|];
      assert r[|set_|] == xs[0];
      r
  }

  /** A relation as the source identifies it: the two class names and the category. */
  datatype Triple = Triple(fromClass: string, toClass: string, rel: Relationship)

  /** What `generateRelations` carries from link to link. */
  datatype Acc<K> = Acc(processed: set<K>, relations: map<string, seq<string>>, imports: seq<string>)

  /** The relation a link stands for, when its category is known and both classes are named. */
  function Resolve(nodes: seq<(int, string)>, link: Link): (r: Option<Triple>)
    ensures r.Some? ==> ParseRelationship(link.relationship) == Some(r.value.rel)
    ensures r.Some? ==> Lookup(nodes, link.from) == Some(r.value.fromClass) && r.value.fromClass != ""
    ensures r.Some? ==> Lookup(nodes, link.to) == Some(r.value.toClass) && r.value.toClass != ""
    ensures r.None? ==>
      || ParseRelationship(link.relationship).None?
      || Lookup(nodes, link.from) in {None, Some("")}
      || Lookup(nodes, link.to) in {None, Some("")}
  {
    var rel := ParseRelationship(link.relationship);
    var from := Lookup(nodes, link.from);
    var to := Lookup(nodes, link.to);
    if rel.None? || from.None? || to.None? || from.value == "" || to.value == "" then None
    else Some(Triple(from.value, to.value, rel.value))
  }

  /**
   * The body of the `links.forEach` callback, generic in how a relation is
   * keyed in the processed set.
   */
  function StepLink<K(==)>(key: Triple -> K, nodes: seq<(int, string)>, acc: Acc<K>, link: Link): (r: Acc<K>)
    ensures Resolve(nodes, link).None? ==> r == acc
    ensures Resolve(nodes, link).Some? && key(Resolve(nodes, link).value) in acc.processed ==> r == acc
    ensures Resolve(nodes, link).Some? && key(Resolve(nodes, link).value) !in acc.processed ==>
      var t := Resolve(nodes, link).value;
      && r.processed == acc.processed + {key(t)}
      && (forall c :: c != t.fromClass && c != t.toClass ==> Lines(r.relations, c) == Lines(acc.relations, c))
      && (forall c :: |Lines(acc.relations, c)| <= |Lines(r.relations, c)|
                      && Lines(r.relations, c)[..|Lines(acc.relations, c)|] == Lines(acc.relations, c))
      && |Lines(r.relations, t.fromClass)| > |Lines(acc.relations, t.fromClass)|
      && |acc.imports| <= |r.imports| && r.imports[..|acc.imports|] == acc.imports
      && (forall k :: |acc.imports| <= k < |r.imports| ==> r.imports[k] in Imports(t.rel) && r.imports[k] !in acc.imports)
      && (forall x :: x in Imports(t.rel) ==> x in r.imports)
    ensures Resolve(nodes, link).Some? && key(Resolve(nodes, link).value) !in acc.processed ==>
      var t := Resolve(nodes, link).value;
      r.relations == Handle(acc.relations, t.rel, t.fromClass, t.toClass) && r.imports == AddAll(acc.imports, Imports(t.rel))
    ensures acc.processed <= r.processed
  {
    match Resolve(nodes, link)
    case None => acc
    case Some(t) =>
      if key(t) in acc.processed then acc
      else Acc(acc.processed + {key(t)}, Handle(acc.relations, t.rel, t.fromClass, t.toClass),
               AddAll(acc.imports, Imports(t.rel)))
  }

  function ProcessLinks<K(==)>(key: Triple -> K, nodes: seq<(int, string)>, acc: Acc<K>, links: seq<Link>): Acc<K>
    decreases |links|
  {
    if links == [] then acc else ProcessLinks(key, nodes, StepLink(key, nodes, acc, links[0]), links[1..])
  }

  /** Processing one more link is one more step. */
  lemma {:induction false} ProcessLinksSnoc<K>(key: Triple -> K, nodes: seq<(int, string)>, acc: Acc<K>,
                                                  links: seq<Link>, link: Link)
    ensures ProcessLinks(key, nodes, acc, links + [link]) ==
            StepLink(key, nodes, ProcessLinks(key, nodes, acc, links), link)
    decreases |links|
  {
    if links == [] {
      assert [link][1..] == [];
    } else {
      assert (links + [link])[1..] == links[1..] + [link];
      ProcessLinksSnoc(key, nodes, StepLink(key, nodes, acc, links[0]), links[1..], link);
    }
  }

  /** The processed set only grows. */
  lemma {:induction false} ProcessLinksGrows<K>(key: Triple -> K, nodes: seq<(int, string)>, acc: Acc<K>,
                                                   links: seq<Link>)
    ensures acc.processed <= ProcessLinks(key, nodes, acc, links).processed
    decreases |links|
  {
    if links != [] {
      ProcessLinksGrows(key, nodes, StepLink(key, nodes, acc, links[0]), links[1..]);
    }
  }

  /** `import X;` for every collected import, in insertion order. */
  function ImportLines(imports: seq<string>): (r: seq<string>)
    ensures |r| == |imports|
    ensures forall i :: 0 <= i < |imports| ==> r[i] == "import " + imports[i] + ";"
  {
    if imports == [] then [] else ["import " + imports[0] + ";"] + ImportLines(imports[1..])
  }

  predicate EndsWith(xs: seq<string>, tail: seq<string>) {
    |xs| >= |tail| && xs[|xs| - |tail|..] == tail
  }

  /** The class names of a node map. */
  function Names(nodes: seq<(int, string)>): (r: set<string>)
    ensures forall i :: 0 <= i < |nodes| ==> nodes[i].1 in r
    ensures forall c :: c in r ==> exists i :: 0 <= i < |nodes| && nodes[i].1 == c
  {
    if nodes == [] then {}
    else
      var r := {nodes[0].1} + Names(nodes[1..]);
      assert forall i :: 1 <= i < |nodes| ==> nodes[i] == nodes[1..][i - 1];
      r
  }

  /** How many entries of a node map carry the class name `c`. */
  function Count(nodes: seq<(int, string)>, c: string): nat {
    if nodes == [] then 0 else (if nodes[0].1 == c then 1 else 0) + Count(nodes[1..], c)
  }

  /** `xs` written `n` times in a row. */
  function Repeat(xs: seq<string>, n: nat): seq<string>
  {
    if n == 0 then [] else Repeat(xs, n - 1) + xs
  }

  lemma {:induction false} RepeatUnfold(xs: seq<string>, n: nat)
    ensures Repeat(xs, n + 1) == xs + Repeat(xs, n)
  {
    if n > 0 {
      RepeatUnfold(xs, n - 1);
    }
  }

  /** The `nodes.forEach` pass that appends the import lines to every named class. */
  function AttachImports(rels: map<string, seq<string>>, nodes: seq<(int, string)>, imports: seq<string>)
    : map<string, seq<string>>
    decreases |nodes|
  {
    if nodes == [] then rels
    else AttachImports(Append(rels, nodes[0].1, ImportLines(imports)), nodes[1..], imports)
  }

  /** The pass adds an entry for every named class and no other. */
  lemma {:induction false} AttachImportsKeys(rels: map<string, seq<string>>, nodes: seq<(int, string)>,
                                            imports: seq<string>)
    ensures AttachImports(rels, nodes, imports).Keys == rels.Keys + Names(nodes)
    decreases |nodes|
  {
    if nodes != [] {
      var rels' := Append(rels, nodes[0].1, ImportLines(imports));
      AttachImportsKeys(rels', nodes[1..], imports);
      assert Names(nodes) == {nodes[0].1} + Names(nodes[1..]);
    }
  }

  /** A class receives the import lines once for every node-map entry naming it. */
  lemma {:induction false} AttachImportsLines(rels: map<string, seq<string>>, nodes: seq<(int, string)>,
                                             imports: seq<string>, c: string)
    ensures Lines(AttachImports(rels, nodes, imports), c) == Lines(rels, c) + Repeat(ImportLines(imports), Count(nodes, c))
    decreases |nodes|
  {
    if nodes != [] {
      var lines := ImportLines(imports);
      var rels' := Append(rels, nodes[0].1, lines);
      AttachImportsLines(rels', nodes[1..], imports, c);
      AppendThenRepeat(rels, nodes[0].1, lines, c, Count(nodes[1..], c));
      assert AttachImports(rels, nodes, imports) == AttachImports(rels', nodes[1..], imports);
    }
  }

  /** One node-map entry's share of the import pass, followed by the rest of it. */
  lemma AppendThenRepeat(rels: map<string, seq<string>>, name: string, lines: seq<string>, c: string, n: nat)
    ensures Lines(Append(rels, name, lines), c) + Repeat(lines, n) ==
            Lines(rels, c) + Repeat(lines, (if name == c then 1 else 0) + n)
  {
    if name == c {
      RepeatUnfold(lines, n);
      assert Lines(rels, c) + lines + Repeat(lines, n) == Lines(rels, c) + (lines + Repeat(lines, n));
    }
  }

  lemma {:induction false} CountPresent(nodes: seq<(int, string)>, c: string)
    requires c in Names(nodes)
    ensures Count(nodes, c) >= 1
    decreases |nodes|
  {
    if nodes[0].1 != c {
      assert c in Names(nodes[1..]);
      CountPresent(nodes[1..], c);
    }
  }

  /** Every class named in the node map ends with one `import X;` line per collected import. */
  lemma ClassEndsWithImports(rels: map<string, seq<string>>, nodes: seq<(int, string)>, imports: seq<string>, c: string)
    requires c in Names(nodes)
    ensures c in AttachImports(rels, nodes, imports)
    ensures EndsWith(AttachImports(rels, nodes, imports)[c], ImportLines(imports))
  {
    AttachImportsKeys(rels, nodes, imports);
    AttachImportsLines(rels, nodes, imports, c);
    CountPresent(nodes, c);
    var r := AttachImports(rels, nodes, imports);
    var n := Count(nodes, c);
    var lines := ImportLines(imports);
    assert Lines(r, c) == (Lines(rels, c) + Repeat(lines, n - 1)) + lines;
  }

  /** Every class named in the node map ends with the import lines. */
  lemma AllClassesEndWithImports(rels: map<string, seq<string>>, nodes: seq<(int, string)>, imports: seq<string>)
    ensures forall c :: c in Names(nodes) ==>
      c in AttachImports(rels, nodes, imports) && EndsWith(AttachImports(rels, nodes, imports)[c], ImportLines(imports))
  {
    forall c | c in Names(nodes)
      ensures c in AttachImports(rels, nodes, imports) && EndsWith(AttachImports(rels, nodes, imports)[c], ImportLines(imports))
    {
      ClassEndsWithImports(rels, nodes, imports, c);
    }
  }

  /** Collected imports are never dropped. */
  lemma {:induction false} ImportsKept<K>(key: Triple -> K, nodes: seq<(int, string)>, acc: Acc<K>, links: seq<Link>)
    ensures forall x :: x in acc.imports ==> x in ProcessLinks(key, nodes, acc, links).imports
    decreases |links|
  {
    if links != [] {
      ImportsKept(key, nodes, StepLink(key, nodes, acc, links[0]), links[1..]);
    }
  }

  /** Every collected import belongs to the relation of some link. */
  lemma {:induction false} ImportsComeFromLinks<K>(key: Triple -> K, nodes: seq<(int, string)>, acc: Acc<K>,
                                                    links: seq<Link>)
    ensures forall x :: x in ProcessLinks(key, nodes, acc, links).imports ==>
      || x in acc.imports
      || exists i :: 0 <= i < |links| && Resolve(nodes, links[i]).Some? && x in Imports(Resolve(nodes, links[i]).value.rel)
    decreases |links|
  {
    if links != [] {
      var acc1 := StepLink(key, nodes, acc, links[0]);
      ImportsComeFromLinks(key, nodes, acc1, links[1..]);
      forall x | x in ProcessLinks(key, nodes, acc, links).imports && x !in acc.imports
        ensures exists i :: 0 <= i < |links| && Resolve(nodes, links[i]).Some? && x in Imports(Resolve(nodes, links[i]).value.rel)
      {
        if x in acc1.imports {
          assert Resolve(nodes, links[0]).Some? && x in Imports(Resolve(nodes, links[0]).value.rel);
        } else {
          var j :| 0 <= j < |links[1..]| && Resolve(nodes, links[1..][j]).Some?
                   && x in Imports(Resolve(nodes, links[1..][j]).value.rel);
          assert links[j + 1] == links[1..][j];
        }
      }
    }
  }

  /** Keyed by the relation itself, every relation new to the processed set brings its imports. */
  lemma {:induction false} NewRelationsBringImports(nodes: seq<(int, string)>, acc: Acc<Triple>, links: seq<Link>)
    ensures forall i :: 0 <= i < |links| && Resolve(nodes, links[i]).Some? && Resolve(nodes, links[i]).value !in acc.processed ==>
      forall x :: x in Imports(Resolve(nodes, links[i]).value.rel) ==> x in ProcessLinks(TripleKey, nodes, acc, links).imports
    decreases |links|
  {
    if links != [] {
      var acc1 := StepLink(TripleKey, nodes, acc, links[0]);
      var p := ProcessLinks(TripleKey, nodes, acc, links);
      NewRelationsBringImports(nodes, acc1, links[1..]);
      ImportsKept(TripleKey, nodes, acc1, links[1..]);
      forall i | 0 <= i < |links| && Resolve(nodes, links[i]).Some? && Resolve(nodes, links[i]).value !in acc.processed
        ensures forall x :: x in Imports(Resolve(nodes, links[i]).value.rel) ==> x in p.imports
      {
        var t := Resolve(nodes, links[i]).value;
        if t in acc1.processed {
          // only the first link can have added `t`, and it brought the imports of `t` with it
          assert Resolve(nodes, links[0]) == Some(t);
          assert forall x :: x in Imports(t.rel) ==> x in acc1.imports;
        } else {
          assert links[i] == links[1..][i - 1];
        }
      }
    }
  }

  /** The imports one call collects, in insertion order: each comes from some link's relation. */
  function CollectedImports<K(==)>(key: Triple -> K, processed: set<K>, links: seq<Link>, nodes: seq<(int, string)>)
    : (r: seq<string>)
    ensures forall x :: x in r ==>
      exists i :: 0 <= i < |links| && Resolve(nodes, links[i]).Some? && x in Imports(Resolve(nodes, links[i]).value.rel)
  {
    ImportsComeFromLinks(key, nodes, Acc(processed, map[], []), links);
    ProcessLinks(key, nodes, Acc(processed, map[], []), links).imports
  }

  /** The annotation and field lines one call collects per class, before the imports are attached. */
  function CollectedRelations<K(==)>(key: Triple -> K, processed: set<K>, links: seq<Link>, nodes: seq<(int, string)>)
    : map<string, seq<string>>
  {
    ProcessLinks(key, nodes, Acc(processed, map[], []), links).relations
  }

  /** Every class's lines are its collected lines, then the import lines once per node-map entry naming it. */
  lemma AllClassLines(rels: map<string, seq<string>>, nodes: seq<(int, string)>, imports: seq<string>)
    ensures forall c :: Lines(AttachImports(rels, nodes, imports), c) == Lines(rels, c) + Repeat(ImportLines(imports), Count(nodes, c))
  {
    forall c
      ensures Lines(AttachImports(rels, nodes, imports), c) == Lines(rels, c) + Repeat(ImportLines(imports), Count(nodes, c))
    {
      AttachImportsLines(rels, nodes, imports, c);
    }
  }

  /** No handler removes a line. */
  lemma HandleKeepsLines(rels: map<string, seq<string>>, rel: Relationship, from: string, to: string, c: string)
    ensures |Lines(Handle(rels, rel, from, to), c)| >= |Lines(rels, c)|
  {
    match rel
    case Inheritance =>
    case Composition =>
    case Aggregation =>
    case Association =>
  }

  /** Later links never remove a class's lines. */
  lemma {:induction false} LinesGrow<K>(key: Triple -> K, nodes: seq<(int, string)>, acc: Acc<K>, links: seq<Link>, c: string)
    ensures |Lines(ProcessLinks(key, nodes, acc, links).relations, c)| >= |Lines(acc.relations, c)|
    decreases |links|
  {
    if links != [] {
      var acc1 := StepLink(key, nodes, acc, links[0]);
      match Resolve(nodes, links[0]) {
        case None =>
        case Some(t) => HandleKeepsLines(acc.relations, t.rel, t.fromClass, t.toClass, c);
      }
      LinesGrow(key, nodes, acc1, links[1..], c);
    }
  }

  /**
   * Keyed by the relation itself, the lines of every relation that is new to
   * the processed set reach its `from` class.
   */
  lemma {:induction false} NewRelationLinesKept(nodes: seq<(int, string)>, acc: Acc<Triple>, links: seq<Link>, i: int)
    requires 0 <= i < |links| && Resolve(nodes, links[i]).Some?
    requires Resolve(nodes, links[i]).value !in acc.processed
    ensures var t := Resolve(nodes, links[i]).value;
      |Lines(ProcessLinks(TripleKey, nodes, acc, links).relations, t.fromClass)| > |Lines(acc.relations, t.fromClass)|
    decreases |links|
  {
    var t := Resolve(nodes, links[i]).value;
    var acc1 := StepLink(TripleKey, nodes, acc, links[0]);
    assert ProcessLinks(TripleKey, nodes, acc, links) == ProcessLinks(TripleKey, nodes, acc1, links[1..]);
    if i == 0 || t in acc1.processed {
      // the first link carries `t` and emits its lines
      assert Resolve(nodes, links[0]) == Some(t);
      NewRelationIsEmitted(nodes, acc, links[0]);
      LinesGrow(TripleKey, nodes, acc1, links[1..], t.fromClass);
    } else {
      assert links[1..][i - 1] == links[i];
      NewRelationLinesKept(nodes, acc1, links[1..], i - 1);
      match Resolve(nodes, links[0])
      case None =>
      case Some(t0) => HandleKeepsLines(acc.relations, t0.rel, t0.fromClass, t0.toClass, t.fromClass);
    }
  }

  /**
   * `generateRelations(links, nodes)` with the processed set passed in and
   * returned, since the service keeps it between calls.
   */
  function GenerateRelationsWith<K(==)>(key: Triple -> K, processed: set<K>, links: seq<Link>, nodes: seq<(int, string)>)
    : (r: (set<K>, map<string, seq<string>>))
    ensures processed <= r.0
    ensures forall k :: k in r.0 - processed ==>
      exists i :: 0 <= i < |links| && Resolve(nodes, links[i]).Some? && key(Resolve(nodes, links[i]).value) == k
    ensures forall i :: 0 <= i < |links| && Resolve(nodes, links[i]).Some? ==> key(Resolve(nodes, links[i]).value) in r.0
    ensures forall c :: c in Names(nodes) ==>
      c in r.1 && EndsWith(r.1[c], ImportLines(CollectedImports(key, processed, links, nodes)))
    ensures r.1.Keys == CollectedRelations(key, processed, links, nodes).Keys + Names(nodes)
    ensures forall c ::
              Lines(r.1, c) ==
              Lines(CollectedRelations(key, processed, links, nodes), c)
              + Repeat(ImportLines(CollectedImports(key, processed, links, nodes)), Count(nodes, c))
  {
    var acc := ProcessLinks(key, nodes, Acc(processed, map[], []), links);
    ProcessLinksGrows(key, nodes, Acc(processed, map[], []), links);
    ProcessedAreResolved(key, nodes, Acc(processed, map[], []), links);
    AllClassesEndWithImports(acc.relations, nodes, acc.imports);
    AttachImportsKeys(acc.relations, nodes, acc.imports);
    AllClassLines(acc.relations, nodes, acc.imports);
    (acc.processed, AttachImports(acc.relations, nodes, acc.imports))
  }

  /** The key the source builds: the three names joined with `-`. */
  function RelationKey(t: Triple): string {
    t.fromClass + "-" + t.toClass + "-" + RelationshipName(t.rel)
  }

  /** `generateRelations` as written, keyed by `RelationKey`. */
  function GenerateRelationsAsWritten(processed: set<string>, links: seq<Link>, nodes: seq<(int, string)>)
    : (r: (set<string>, map<string, seq<string>>))
    ensures processed <= r.0
    ensures forall k :: k in r.0 - processed ==>
      exists i :: 0 <= i < |links| && Resolve(nodes, links[i]).Some? && RelationKey(Resolve(nodes, links[i]).value) == k
    ensures forall i :: 0 <= i < |links| && Resolve(nodes, links[i]).Some? ==> RelationKey(Resolve(nodes, links[i]).value) in r.0
    ensures forall c :: c in Names(nodes) ==>
      c in r.1 && EndsWith(r.1[c], ImportLines(CollectedImports(RelationKey, processed, links, nodes)))
    ensures r.1.Keys == CollectedRelations(RelationKey, processed, links, nodes).Keys + Names(nodes)
    ensures forall c ::
              Lines(r.1, c) ==
              Lines(CollectedRelations(RelationKey, processed, links, nodes), c)
              + Repeat(ImportLines(CollectedImports(RelationKey, processed, links, nodes)), Count(nodes, c))
  {
    GenerateRelationsWith(RelationKey, processed, links, nodes)
  }

  /** Two different relations whose joined keys coincide. */
  lemma RelationKeyCollides()
    ensures var a := Triple("A-B", "C", Association);
            var b := Triple("A", "B-C", Association);
            a != b && RelationKey(a) == RelationKey(b)
  {
    var a := Triple("A-B", "C", Association);
    var b := Triple("A", "B-C", Association);
    assert a.fromClass != b.fromClass;
    assert RelationKey(a) == "A-B-C-Association";
    assert RelationKey(b) == "A-B-C-Association";
  }

  /** The node map and links of the collision example. */
  function CollisionNodes(): seq<(int, string)> {
    [(1, "A-B"), (2, "C"), (3, "A"), (4, "B-C")]
  }

  function CollisionLinks(): seq<Link> {
    [Link(1, 2, Some("Association")), Link(3, 4, Some("Association"))]
  }

  /** As written, the second link of the example is skipped: nothing is collected for `A`. */
  lemma AsWrittenSkipsSecondLink()
    ensures var acc := ProcessLinks(RelationKey, CollisionNodes(), Acc({}, map[], []), CollisionLinks());
      "A" !in acc.relations && acc.imports == Imports(Association)
  {
    var nodes := CollisionNodes();
    var links := CollisionLinks();
    RelationKeyCollides();
    assert Resolve(nodes, links[0]) == Some(Triple("A-B", "C", Association));
    assert Resolve(nodes, links[1]) == Some(Triple("A", "B-C", Association));
    var acc0 := Acc({}, map[], []);
    var acc1 := StepLink(RelationKey, nodes, acc0, links[0]);
    assert acc1.relations.Keys == {"A-B"};
    var acc2 := StepLink(RelationKey, nodes, acc1, links[1]);
    assert acc2 == acc1;
    assert links[1..][1..] == [];
  }

  /**
   * As written, the association from `A` to `B-C` is dropped because the
   * association from `A-B` to `C` was processed first: class `A` receives the
   * import line only.
   */
  lemma AsWrittenDropsCollidingRelation()
    ensures GenerateRelationsAsWritten({}, CollisionLinks(), CollisionNodes()).1["A"] ==
            ImportLines(Imports(Association))
  {
    var nodes := CollisionNodes();
    var acc := ProcessLinks(RelationKey, nodes, Acc({}, map[], []), CollisionLinks());
    AsWrittenSkipsSecondLink();
    AttachImportsKeys(acc.relations, nodes, acc.imports);
    AttachImportsLines(acc.relations, nodes, acc.imports, "A");
    assert Count(nodes, "A") == 1 by {
      assert nodes[1..] == [(2, "C"), (3, "A"), (4, "B-C")];
      assert nodes[1..][1..] == [(3, "A"), (4, "B-C")];
      assert nodes[1..][1..][1..] == [(4, "B-C")];
      assert Count([(4, "B-C")], "A") == 0;
    }
    var lines := ImportLines(acc.imports);
    assert Repeat(lines, 1) == lines;
    var r := AttachImports(acc.relations, nodes, acc.imports);
    assert Lines(acc.relations, "A") == [];
    assert Lines(r, "A") == lines;
    assert GenerateRelationsAsWritten({}, CollisionLinks(), nodes).1 == r;
  }

  /** The key as evidently intended: the relation itself. */
  function TripleKey(t: Triple): Triple { t }

  /**
   * `generateRelations` keyed by the relation itself. Every link to a known
   * category between two named classes is emitted exactly when its relation
   * was not processed before.
   */
  function GenerateRelations(processed: set<Triple>, links: seq<Link>, nodes: seq<(int, string)>)
    : (r: (set<Triple>, map<string, seq<string>>))
    ensures processed <= r.0
    ensures forall t :: t in r.0 - processed ==> exists i :: 0 <= i < |links| && Resolve(nodes, links[i]) == Some(t)
    ensures forall i :: 0 <= i < |links| && Resolve(nodes, links[i]).Some? ==> Resolve(nodes, links[i]).value in r.0
    ensures forall c :: c in Names(nodes) ==>
      c in r.1 && EndsWith(r.1[c], ImportLines(CollectedImports(TripleKey, processed, links, nodes)))
    ensures forall i :: 0 <= i < |links| && Resolve(nodes, links[i]).Some? && Resolve(nodes, links[i]).value !in processed ==>
      forall x :: x in Imports(Resolve(nodes, links[i]).value.rel) ==> x in CollectedImports(TripleKey, processed, links, nodes)
    ensures r.1.Keys == CollectedRelations(TripleKey, processed, links, nodes).Keys + Names(nodes)
    ensures forall c ::
              Lines(r.1, c) ==
              Lines(CollectedRelations(TripleKey, processed, links, nodes), c)
              + Repeat(ImportLines(CollectedImports(TripleKey, processed, links, nodes)), Count(nodes, c))
    ensures forall i :: 0 <= i < |links| && Resolve(nodes, links[i]).Some? && Resolve(nodes, links[i]).value !in processed ==>
      Lines(CollectedRelations(TripleKey, processed, links, nodes), Resolve(nodes, links[i]).value.fromClass) != []
  {
    NewRelationsBringImports(nodes, Acc(processed, map[], []), links);
    NewRelationsEmitted(processed, links, nodes);
    GenerateRelationsWith(TripleKey, processed, links, nodes)
  }

  /** Every relation new to the processed set leaves lines on its `from` class. */
  lemma NewRelationsEmitted(processed: set<Triple>, links: seq<Link>, nodes: seq<(int, string)>)
    ensures forall i :: 0 <= i < |links| && Resolve(nodes, links[i]).Some? && Resolve(nodes, links[i]).value !in processed ==>
      Lines(CollectedRelations(TripleKey, processed, links, nodes), Resolve(nodes, links[i]).value.fromClass) != []
  {
    forall i | 0 <= i < |links| && Resolve(nodes, links[i]).Some? && Resolve(nodes, links[i]).value !in processed
      ensures Lines(CollectedRelations(TripleKey, processed, links, nodes), Resolve(nodes, links[i]).value.fromClass) != []
    {
      NewRelationLinesKept(nodes, Acc(processed, map[], []), links, i);
    }
  }

  /** Corrected, the first link of the example records `A-B`-to-`C` and nothing for `A`. */
  lemma CorrectedFirstStep()
    ensures var acc := StepLink(TripleKey, CollisionNodes(), Acc({}, map[], []), CollisionLinks()[0]);
      && acc.processed == {Triple("A-B", "C", Association)}
      && Lines(acc.relations, "A") == []
      && acc.imports == Imports(Association)
  {
    var nodes := CollisionNodes();
    assert Resolve(nodes, CollisionLinks()[0]) == Some(Triple("A-B", "C", Association));
    assert AddAll([], Imports(Association)) == AddAll(Imports(Association), []);
  }

  /**
   * Corrected, the second link of the example is new after the first: `A`
   * gains the `@OneToOne` lines and the imports stay those of an association.
   */
  lemma CorrectedSecondStep(acc: Acc<Triple>)
    requires acc.processed == {Triple("A-B", "C", Association)}
    requires Lines(acc.relations, "A") == [] && acc.imports == Imports(Association)
    ensures var r := StepLink(TripleKey, CollisionNodes(), acc, CollisionLinks()[1]);
      Lines(r.relations, "A") == ReferenceLines("@OneToOne", "B-C") && r.imports == Imports(Association)
  {
    var t := Triple("A", "B-C", Association);
    assert Resolve(CollisionNodes(), CollisionLinks()[1]) == Some(t);
    assert t !in acc.processed by {
      assert t.fromClass != "A-B";
    }
    var r := StepLink(TripleKey, CollisionNodes(), acc, CollisionLinks()[1]);
    assert r.relations == HandleAssociation(acc.relations, "A", "B-C");
    assert r.imports == AddAll(Imports(Association), Imports(Association));
    assert AddAll(Imports(Association), Imports(Association)) == AddAll(Imports(Association), []);
  }

  /** Corrected, the second link of the example is kept: `A` collects its association to `B-C`. */
  lemma CorrectedKeepsSecondLink()
    ensures var acc := ProcessLinks(TripleKey, CollisionNodes(), Acc({}, map[], []), CollisionLinks());
      Lines(acc.relations, "A") == ReferenceLines("@OneToOne", "B-C") && acc.imports == Imports(Association)
  {
    var nodes := CollisionNodes();
    var links := CollisionLinks();
    CorrectedFirstStep();
    var acc1 := StepLink(TripleKey, nodes, Acc({}, map[], []), links[0]);
    CorrectedSecondStep(acc1);
    ProcessTwoLinks(TripleKey, nodes, Acc({}, map[], []), links);
  }

  /** Processing two links is two steps. */
  lemma ProcessTwoLinks<K>(key: Triple -> K, nodes: seq<(int, string)>, acc: Acc<K>, links: seq<Link>)
    requires |links| == 2
    ensures ProcessLinks(key, nodes, acc, links) ==
            StepLink(key, nodes, StepLink(key, nodes, acc, links[0]), links[1])
  {
    var acc1 := StepLink(key, nodes, acc, links[0]);
    assert links[1..][0] == links[1] && links[1..][1..] == [];
    assert ProcessLinks(key, nodes, acc, links) == ProcessLinks(key, nodes, acc1, links[1..]);
  }

  /** `A` names exactly one node of the collision example. */
  lemma CollisionCountA()
    ensures Count(CollisionNodes(), "A") == 1 && "A" in Names(CollisionNodes())
  {
    var nodes := CollisionNodes();
    assert nodes[1..] == [(2, "C"), (3, "A"), (4, "B-C")];
    assert nodes[1..][1..] == [(3, "A"), (4, "B-C")];
    assert nodes[1..][1..][1..] == [(4, "B-C")];
    assert Count([(4, "B-C")], "A") == 0;
    assert nodes[2].1 == "A";
  }

  /**
   * The corrected generator on the collision example: class `A` gets the
   * `@OneToOne` lines of its association to `B-C`, then the import line.
   */
  lemma CorrectedKeepsCollidingRelation()
    ensures GenerateRelations({}, CollisionLinks(), CollisionNodes()).1["A"] ==
            ReferenceLines("@OneToOne", "B-C") + ImportLines(Imports(Association))
  {
    CorrectedKeepsSecondLink();
    CollisionCountA();
    var lines := ImportLines(Imports(Association));
    assert Repeat(lines, 1) == lines;
    var r := GenerateRelations({}, CollisionLinks(), CollisionNodes()).1;
    assert Lines(r, "A") == ReferenceLines("@OneToOne", "B-C") + lines;
  }

  /** The processed set gains exactly the keys of the links' relations. */
  lemma ProcessedAreResolved<K>(key: Triple -> K, nodes: seq<(int, string)>, acc: Acc<K>, links: seq<Link>)
    ensures var p := ProcessLinks(key, nodes, acc, links).processed;
      && (forall k :: k in p - acc.processed ==>
            exists i :: 0 <= i < |links| && Resolve(nodes, links[i]).Some? && key(Resolve(nodes, links[i]).value) == k)
      && (forall i :: 0 <= i < |links| && Resolve(nodes, links[i]).Some? ==> key(Resolve(nodes, links[i]).value) in p)
  {
    AddedKeysComeFromLinks(key, nodes, acc, links);
    LinkKeysAreProcessed(key, nodes, acc, links);
  }

  lemma {:induction false} AddedKeysComeFromLinks<K>(key: Triple -> K, nodes: seq<(int, string)>, acc: Acc<K>,
                                                      links: seq<Link>)
    ensures forall k :: k in ProcessLinks(key, nodes, acc, links).processed - acc.processed ==>
      exists i :: 0 <= i < |links| && Resolve(nodes, links[i]).Some? && key(Resolve(nodes, links[i]).value) == k
    decreases |links|
  {
    if links != [] {
      var acc1 := StepLink(key, nodes, acc, links[0]);
      AddedKeysComeFromLinks(key, nodes, acc1, links[1..]);
      assert ProcessLinks(key, nodes, acc, links) == ProcessLinks(key, nodes, acc1, links[1..]);
      var p := ProcessLinks(key, nodes, acc1, links[1..]).processed;
      forall k | k in p - acc.processed
        ensures exists i :: 0 <= i < |links| && Resolve(nodes, links[i]).Some? && key(Resolve(nodes, links[i]).value) == k
      {
        if k in acc1.processed {
          assert Resolve(nodes, links[0]).Some? && key(Resolve(nodes, links[0]).value) == k;
        } else {
          assert k in p - acc1.processed;
          var j :| 0 <= j < |links[1..]| && Resolve(nodes, links[1..][j]).Some? && key(Resolve(nodes, links[1..][j]).value) == k;
          assert links[j + 1] == links[1..][j];
        }
      }
    }
  }

  lemma {:induction false} LinkKeysAreProcessed<K>(key: Triple -> K, nodes: seq<(int, string)>, acc: Acc<K>,
                                                    links: seq<Link>)
    ensures forall i :: 0 <= i < |links| && Resolve(nodes, links[i]).Some? ==>
      key(Resolve(nodes, links[i]).value) in ProcessLinks(key, nodes, acc, links).processed
    decreases |links|
  {
    if links != [] {
      var acc1 := StepLink(key, nodes, acc, links[0]);
      LinkKeysAreProcessed(key, nodes, acc1, links[1..]);
      ProcessLinksGrows(key, nodes, acc1, links[1..]);
      assert ProcessLinks(key, nodes, acc, links) == ProcessLinks(key, nodes, acc1, links[1..]);
      forall i | 0 <= i < |links| && Resolve(nodes, links[i]).Some?
        ensures key(Resolve(nodes, links[i]).value) in ProcessLinks(key, nodes, acc, links).processed
      {
        if i == 0 {
          assert key(Resolve(nodes, links[0]).value) in acc1.processed;
        } else {
          assert links[i] == links[1..][i - 1];
        }
      }
    }
  }

  /**
   * A link whose relation was already processed, in this call or an earlier
   * one, changes nothing.
   */
  lemma ProcessedLinkIsIgnored(nodes: seq<(int, string)>, acc: Acc<Triple>, links: seq<Link>, link: Link)
    requires Resolve(nodes, link).Some?
    requires Resolve(nodes, link).value in acc.processed
    ensures ProcessLinks(TripleKey, nodes, acc, links + [link]) == ProcessLinks(TripleKey, nodes, acc, links)
  {
    ProcessLinksSnoc(TripleKey, nodes, acc, links, link);
    ProcessLinksGrows(TripleKey, nodes, acc, links);
  }

  /**
   * A link whose relation is new always emits lines for its `from` class. With
   * the joined-string key this fails for the second link of
   * `AsWrittenDropsCollidingRelation`.
   */
  lemma NewRelationIsEmitted(nodes: seq<(int, string)>, acc: Acc<Triple>, link: Link)
    requires Resolve(nodes, link).Some?
    requires Resolve(nodes, link).value !in acc.processed
    ensures var t := Resolve(nodes, link).value;
      |Lines(StepLink(TripleKey, nodes, acc, link).relations, t.fromClass)| > |Lines(acc.relations, t.fromClass)|
  {
    var t := Resolve(nodes, link).value;
    HandleGrowsFrom(acc.relations, t.rel, t.fromClass, t.toClass);
  }
}
