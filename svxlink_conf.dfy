/**
  The configuration document, taken as already parsed: an ordered sequence
  of named sections, each an ordered sequence of (option, value) pairs as the
  INI store holds them.  Listing the TYPE=Net sections builds Net records;
  adding a record appends a section built from its items.
*/
module SvxlinkConf {
  import opened Results
  import opened Ascii
  import opened OrderedDict
  import opened SvxlinkType

  /** One parsed section. */
  datatype Section = Section(name: string, options: seq<Pair>)

  function Names(doc: seq<Section>): seq<string>
  {
    seq(|doc|, i requires 0 <= i < |doc| => doc[i].name)
  }

  /** `has_option(x, "TYPE") and get(x, "TYPE") == "Net"`: the option spelled exactly TYPE,
      with exactly the value Net. */
  predicate IsNetSection(s: Section)
    ensures IsNetSection(s) ==> ("TYPE", NET_TYPE) in s.options
    ensures Distinct(Keys(s.options)) ==> (IsNetSection(s) <==> ("TYPE", NET_TYPE) in s.options)
  {
    LookupMember(s.options, "TYPE", NET_TYPE);
    Lookup(s.options, "TYPE") == Some(NET_TYPE)
  }

  /** The `filter` of `get_remote_nodes`: the Net sections in document order. */
  function NetSections(doc: seq<Section>): (r: seq<Section>)
    ensures forall s :: s in r <==> s in doc && IsNetSection(s)
  {
    if doc == [] then []
    else
      assert doc == [doc[0]] + doc[1..];
      (if IsNetSection(doc[0]) then [doc[0]] else []) + NetSections(doc[1..])
  }

  /** The filter works section by section: it distributes over concatenation. */
  lemma {:induction false} NetSectionsAppend(a: seq<Section>, b: seq<Section>)
    ensures NetSections(a + b) == NetSections(a) + NetSections(b)
  {
    if a != [] {
      assert (a + b)[0] == a[0] && (a + b)[1..] == a[1..] + b;
      NetSectionsAppend(a[1..], b);
    } else {
      assert a + b == b;
    }
  }

  /** The `map` of `get_remote_nodes`: one Net record per section, built from its pairs;
      the first section whose pairs are refused makes the whole call fail. */
  function BuildNodes(secs: seq<Section>): (r: Result<seq<Record>, Error>)
    ensures r.Success? <==> forall i :: 0 <= i < |secs| ==> NetRecord(secs[i].name, Some(secs[i].options)).Success?
    ensures r.Success? ==>
              |r.value| == |secs|
              && forall i :: 0 <= i < |secs| ==> NetRecord(secs[i].name, Some(secs[i].options)) == Success(r.value[i])
    ensures r.Failure? ==> r.error.InvalidOption? && exists i :: 0 <= i < |secs| && secs[i].name == r.error.section
  {
    if secs == [] then Success([])
    else
      assert forall i :: 0 < i < |secs| ==> secs[i] == secs[1..][i - 1];
      match NetRecord(secs[0].name, Some(secs[0].options))
      case Failure(e) => Failure(e)
      case Success(n) =>
        match BuildNodes(secs[1..])
        case Failure(e) => Failure(e)
        case Success(ns) => Success([n] + ns)
  }

  /** `get_remote_nodes`: one Net record per Net section, in document order, named like it. */
  function GetRemoteNodes(doc: seq<Section>): (r: Result<seq<Record>, Error>)
    ensures r.Success? ==>
              && |r.value| == |NetSections(doc)|
              && forall i :: 0 <= i < |r.value| ==>
                   && r.value[i].sectionName == NetSections(doc)[i].name
                   && r.value[i].typeName == NET_TYPE && r.value[i].validOptions == NET_OPTIONS
    ensures r.Failure? ==>
              && r.error.InvalidOption?
              && exists i :: 0 <= i < |NetSections(doc)| && NetSections(doc)[i].name == r.error.section
  {
    BuildNodes(NetSections(doc))
  }

  /** Prepending to a concatenation prepends to its first part. */
  lemma ConsAppend<T>(x: T, a: seq<T>, b: seq<T>)
    ensures [x] + (a + b) == ([x] + a) + b
  {
  }

  /** Mapping works section by section too. */
  lemma {:induction false} BuildNodesAppend(a: seq<Section>, b: seq<Section>)
    ensures BuildNodes(a + b) ==
              match BuildNodes(a)
              case Failure(e) => Failure(e)
              case Success(ns) =>
                match BuildNodes(b)
                case Failure(e) => Failure(e)
                case Success(ms) => Success(ns + ms)
  {
    if a != [] {
      assert (a + b)[0] == a[0] && (a + b)[1..] == a[1..] + b;
      BuildNodesAppend(a[1..], b);
      match NetRecord(a[0].name, Some(a[0].options)) {
        case Failure(e) =>
        case Success(n) =>
          match BuildNodes(a[1..]) {
            case Failure(e) =>
            case Success(ns) =>
              match BuildNodes(b) {
                case Failure(e) =>
                case Success(ms) =>
                  ConsAppend(n, ns, ms);
              }
          }
      }
    } else {
      assert a + b == b;
      assert BuildNodes(a) == Success([]);
      if BuildNodes(b).Success? {
        assert [] + BuildNodes(b).value == BuildNodes(b).value;
      }
    }
  }

  /** What `get_remote_nodes` returns: it succeeds exactly when every option of every Net section is
      allowed for Net, and then the i-th record is the i-th Net section, named like it, holding
      for each option the last value the section gave it. */
  lemma RemoteNodesSpec(doc: seq<Section>)
    ensures var sel := NetSections(doc);
      GetRemoteNodes(doc).Success? <==>
        forall i, j :: 0 <= i < |sel| && 0 <= j < |sel[i].options| ==> Upper(sel[i].options[j].0) in NET_OPTIONS
    ensures var sel := NetSections(doc);
      GetRemoteNodes(doc).Success? ==>
        var nodes := GetRemoteNodes(doc).value;
        |nodes| == |sel|
        && forall i :: 0 <= i < |sel| ==>
             && nodes[i].typeName == NET_TYPE && nodes[i].sectionName == sel[i].name
             && nodes[i].validOptions == NET_OPTIONS
             && nodes[i].WellFormed() && nodes[i].KeysAllowed()
             && forall k :: nodes[i].Get(k) == LastValue(sel[i].options, Upper(k))
  {
    var sel := NetSections(doc);
    forall i | 0 <= i < |sel|
      ensures NetRecord(sel[i].name, Some(sel[i].options)).Success? <==>
                forall j :: 0 <= j < |sel[i].options| ==> Upper(sel[i].options[j].0) in NET_OPTIONS
    {
      LoadSucceedsIff(Record(NET_TYPE, sel[i].name, NET_OPTIONS, []), sel[i].options);
    }
    if GetRemoteNodes(doc).Success? {
      var nodes := GetRemoteNodes(doc).value;
      forall i, k | 0 <= i < |sel|
        ensures && nodes[i].typeName == NET_TYPE && nodes[i].sectionName == sel[i].name
                && nodes[i].validOptions == NET_OPTIONS
                && nodes[i].WellFormed() && nodes[i].KeysAllowed()
                && nodes[i].Get(k) == LastValue(sel[i].options, Upper(k))
      {
        var empty := Record(NET_TYPE, sel[i].name, NET_OPTIONS, []);
        LoadPreserves(empty, sel[i].options);
        ConstructFromData(NET_TYPE, sel[i].name, NET_OPTIONS, sel[i].options, k);
      }
    }
  }

  /** With distinct section names, a section gives a record exactly when it is a Net section:
      no TYPE, or a TYPE other than Net, excludes it. */
  lemma RemoteNodesSelect(doc: seq<Section>, s: Section)
    requires Distinct(Names(doc)) && s in doc
    requires GetRemoteNodes(doc).Success?
    ensures (exists i :: 0 <= i < |GetRemoteNodes(doc).value| && GetRemoteNodes(doc).value[i].sectionName == s.name)
            <==> IsNetSection(s)
  {
    var sel := NetSections(doc);
    var nodes := GetRemoteNodes(doc).value;
    if IsNetSection(s) {
      assert s in sel;
      var i :| 0 <= i < |sel| && sel[i] == s;
      assert nodes[i].sectionName == s.name;
    } else {
      forall i | 0 <= i < |nodes| ensures nodes[i].sectionName != s.name {
        assert sel[i] in doc;
        var a :| 0 <= a < |doc| && doc[a] == sel[i];
        var b :| 0 <= b < |doc| && doc[b] == s;
        assert Names(doc)[a] == sel[i].name && Names(doc)[b] == s.name;
      }
    }
  }

  /** Pairs that are already distinct, upper-case and allowed load unchanged, appended in order. */
  lemma {:induction false} LoadVerbatim(r: Record, data: seq<Pair>)
    requires forall i :: 0 <= i < |data| ==> data[i].0 in r.validOptions && IsUpper(data[i].0)
    requires Distinct(Keys(r.entries + data))
    ensures Load(r, data) == Success(r.(entries := r.entries + data))
    decreases |data|
  {
    if data != [] {
      var m := r.entries + data;
      var r' := r.(entries := r.entries + [data[0]]);
      assert r.Set(data[0].0, data[0].1) == Success(r') by {
        assert Keys(m)[|r.entries|] == data[0].0;
        assert Keys(r.entries) == Keys(m)[..|r.entries|];
        SetAppends(r, data[0].0, data[0].1);
      }
      assert Distinct(Keys(r'.entries + data[1..])) by {
        assert r'.entries + data[1..] == m;
      }
      assert forall i :: 0 <= i < |data[1..]| ==> data[1..][i].0 in r'.validOptions && IsUpper(data[1..][i].0) by {
        assert forall i :: 0 <= i < |data[1..]| ==> data[1..][i] == data[i + 1];
      }
      LoadVerbatim(r', data[1..]);
      assert r'.(entries := r'.entries + data[1..]) == r.(entries := m);
    } else {
      assert r.entries + data == r.entries;
    }
  }

  /** A well-formed Net record is rebuilt exactly from its own items. */
  lemma NetRecordOfItems(rec: Record)
    requires rec.typeName == NET_TYPE && rec.validOptions == NET_OPTIONS
    requires rec.WellFormed() && rec.KeysAllowed()
    ensures NetRecord(rec.sectionName, Some(rec.Items())) == Success(rec)
  {
    VariantItems(rec);
    var empty := Record(NET_TYPE, rec.sectionName, NET_OPTIONS, []);
    assert empty.entries + rec.entries == rec.entries;
    LoadVerbatim(empty, rec.entries);
    assert empty.(entries := rec.entries) == rec;
  }

  /** The section `add_section` writes for a Net record with TYPE=Net is itself a Net section,
      and mapping it gives back the record. */
  lemma SectionOfNetRecord(rec: Record)
    requires rec.typeName == NET_TYPE && rec.validOptions == NET_OPTIONS
    requires rec.WellFormed() && rec.KeysAllowed()
    requires rec.Get("TYPE") == Some(NET_TYPE)
    ensures var sec := Section(rec.sectionName, rec.Items());
      NetSections([sec]) == [sec] && BuildNodes([sec]) == Success([rec])
  {
    var sec := Section(rec.sectionName, rec.Items());
    VariantItems(rec);
    AllowListsUpper();
    assert IsNetSection(sec);
    assert NetSections([sec]) == [sec] by {
      assert [sec][1..] == [];
    }
    NetRecordOfItems(rec);
    assert BuildNodes([sec]) == Success([rec]) by {
      assert [sec][1..] == [];
      assert [rec] + [] == [rec];
    }
  }

  /** Adding a Net record with TYPE=Net and reading the remote nodes again gives back the
      remote nodes before, followed by that record. */
  lemma AddThenGetRemoteNodes(doc: seq<Section>, rec: Record)
    requires rec.typeName == NET_TYPE && rec.validOptions == NET_OPTIONS
    requires rec.WellFormed() && rec.KeysAllowed()
    requires rec.Get("TYPE") == Some(NET_TYPE)
    ensures GetRemoteNodes(doc + [Section(rec.sectionName, rec.Items())]) ==
              match GetRemoteNodes(doc)
              case Failure(e) => Failure(e)
              case Success(ns) => Success(ns + [rec])
  {
    var sec := Section(rec.sectionName, rec.Items());
    SectionOfNetRecord(rec);
    NetSectionsAppend(doc, [sec]);
    BuildNodesAppend(NetSections(doc), [sec]);
  }

  /** The NodeA section of the three-section document below. */
  const NODE_A: Section := Section("NodeA", [("TYPE", "Net"), ("HOST", "1.2.3.4"), ("TCP_PORT", "5200")])

  /** A document of three sections: GLOBAL without TYPE, NodeA with TYPE=Net, Repeater1 with
      TYPE=Multi. */
  const SCENARIO: seq<Section> := [
    Section("GLOBAL", [("MODULE_PATH", "/usr/lib/svxlink")]),
    NODE_A,
    Section("Repeater1", [("TYPE", "Multi"), ("TRANSMITTERS", "A,B")])]

  /** Of the three sections only NodeA is a Net section. */
  lemma ScenarioSelection()
    ensures NetSections(SCENARIO) == [NODE_A]
  {
    var global := SCENARIO[0];
    var rep := SCENARIO[2];
    assert |"MODULE_PATH"| != |"TYPE"| && |"Multi"| != |"Net"|;
    assert global.options[1..] == [];
    assert !IsNetSection(global) && IsNetSection(NODE_A) && !IsNetSection(rep);
    assert SCENARIO[1..] == [NODE_A, rep] && [NODE_A, rep][1..] == [rep] && [rep][1..] == [];
    assert NetSections([rep]) == [];
    assert NetSections([NODE_A, rep]) == [NODE_A];
  }

  /** NodeA's pairs are all allowed for Net and load as they stand. */
  lemma ScenarioNodeA()
    ensures NetRecord("NodeA", Some(NODE_A.options)) == Success(Record(NET_TYPE, "NodeA", NET_OPTIONS, NODE_A.options))
  {
    AllowListsUpper();
    var empty := Record(NET_TYPE, "NodeA", NET_OPTIONS, []);
    assert |"TYPE"| != |"TCP_PORT"| && "TYPE" != "HOST" && |"HOST"| != |"TCP_PORT"|;
    assert Keys([] + NODE_A.options) == ["TYPE", "HOST", "TCP_PORT"];
    LoadVerbatim(empty, NODE_A.options);
    assert [] + NODE_A.options == NODE_A.options;
  }

  /** `get_remote_nodes` on the three-section document maps NodeA alone, as it stands. */
  lemma ScenarioRemoteNodes()
    ensures GetRemoteNodes(SCENARIO) == Success([Record(NET_TYPE, "NodeA", NET_OPTIONS, NODE_A.options)])
  {
    ScenarioSelection();
    ScenarioNodeA();
    var rec := Record(NET_TYPE, "NodeA", NET_OPTIONS, NODE_A.options);
    assert [NODE_A][0] == NODE_A && NODE_A.name == "NodeA";
    var built := BuildNodes([NODE_A]);
    assert built.Success? && |built.value| == 1 && built.value[0] == rec;
    assert built.value == [rec];
  }

  /** `get_remote_nodes` on the three-section document lists NodeA alone, with its HOST and TCP_PORT. */
  lemma ThreeSectionScenario()
    ensures GetRemoteNodes(SCENARIO).Success? && |GetRemoteNodes(SCENARIO).value| == 1
    ensures var node := GetRemoteNodes(SCENARIO).value[0];
      && node.sectionName == "NodeA"
      && node.Get("HOST") == Some("1.2.3.4")
      && node.Get("TCP_PORT") == Some("5200")
  {
    ScenarioRemoteNodes();
    var rec := Record(NET_TYPE, "NodeA", NET_OPTIONS, NODE_A.options);
    AllowListsUpper();
    assert |"TYPE"| != |"TCP_PORT"| && "TYPE" != "HOST" && |"HOST"| != |"TCP_PORT"|;
    assert rec.Get("HOST") == Lookup(NODE_A.options, "HOST");
    assert rec.Get("TCP_PORT") == Lookup(NODE_A.options, "TCP_PORT");
  }

  // ---------------------------------------------------------------------
  // The document object

  /** The document after `set(name, option, value)`: the option updated in each section so named. */
  function SetIn(doc: seq<Section>, name: string, option: string, value: string): (r: seq<Section>)
    ensures Names(r) == Names(doc)
    ensures |r| == |doc| && forall j :: 0 <= j < |doc| && doc[j].name != name ==> r[j] == doc[j]
  {
    seq(|doc|, j requires 0 <= j < |doc| =>
          if doc[j].name == name then Section(name, Update(doc[j].options, option, value)) else doc[j])
  }

  /** Setting an option of a section appended under a fresh name updates that section alone. */
  lemma SetInAppended(before: seq<Section>, name: string, opts: seq<Pair>, option: string, value: string)
    requires forall j :: 0 <= j < |before| ==> before[j].name != name
    ensures SetIn(before + [Section(name, opts)], name, option, value)
              == before + [Section(name, Update(opts, option, value))]
  {
  }

  /** The loaded document; `add_section` changes it in place. */
  class Conf {
    var sections: seq<Section>

    /** Section names are unique, and so are the option names within each section,
        as the store, a mapping of mappings, enforces. */
    ghost predicate Valid()
      reads this
    {
      && Distinct(Names(sections))
      && forall j :: 0 <= j < |sections| ==> Distinct(Keys(sections[j].options))
    }

    /** The document as the parser produced it. */
    constructor (doc: seq<Section>)
      requires Distinct(Names(doc))
      requires forall j :: 0 <= j < |doc| ==> Distinct(Keys(doc[j].options))
      ensures Valid() && sections == doc
    {
      sections := doc;
    }

    /** The store's `set(section, option, value)`: update the option in the named section. */
    method SetOption(name: string, option: string, value: string) returns (r: Outcome<Error>)
      requires Valid()
      modifies this
      ensures Valid()
      ensures r.Pass? <==> name in Names(old(sections))
      ensures r.Fail? ==> r.error == NoSection(name) && sections == old(sections)
      ensures r.Pass? ==> sections == SetIn(old(sections), name, option, value)
      ensures r.Pass? ==>
                |sections| == |old(sections)|
                && forall j :: 0 <= j < |sections| ==>
                     sections[j] == if old(sections)[j].name == name
                                    then Section(name, Update(old(sections)[j].options, option, value))
                                    else old(sections)[j]
    {
      if name !in Names(sections) {
        return Fail(NoSection(name));
      }
      var doc := sections;
      sections := SetIn(doc, name, option, value);
      forall j | 0 <= j < |doc| && doc[j].name == name
        ensures Distinct(Keys(sections[j].options))
      {
        UpdateKeys(doc[j].options, option, value);
      }
      r := Pass;
    }

    /** `add_section`: refuse a name already in the document; otherwise append a section with
        that name and copy the record's items into it one by one. */
    method AddSection(obj: TypeContainer) returns (r: Outcome<Error>)
      requires Valid() && obj.Valid()
      modifies this
      ensures Valid()
      ensures obj.sectionName in Names(old(sections)) ==>
                r == Fail(DuplicateSection(obj.sectionName)) && sections == old(sections)
      ensures obj.sectionName !in Names(old(sections)) ==>
                r == Pass && sections == old(sections) + [Section(obj.sectionName, obj.Model().Items())]
    {
      var name := obj.sectionName;
      if name in Names(sections) {
        return Fail(DuplicateSection(name));
      }
      ghost var before := sections;
      assert forall j :: 0 <= j < |before| ==> before[j].name != name by {
        forall j | 0 <= j < |before| ensures before[j].name != name {
          assert Names(before)[j] == before[j].name;
        }
      }
      sections := sections + [Section(name, [])];
      assert Names(sections) == Names(before) + [name];
      var items := obj.Items();
      for i := 0 to |items|
        invariant Valid()
        invariant sections == before + [Section(name, items[..i])]
      {
        var k := items[i].0;
        UpdatePrefix(items, i);
        assert name in Names(sections) by {
          assert Names(sections)[|before|] == name;
        }
        SetInAppended(before, name, items[..i], k, items[i].1);
        var ok := SetOption(name, k, items[i].1);
      }
      assert items[..|items|] == items;
      r := Pass;
    }
  }
}
