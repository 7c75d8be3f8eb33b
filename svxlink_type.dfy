/**
  Typed sections of svxlink.conf: a record of upper-cased option names and
  their values, guarded by the allow-list of its section type, and the two
  section types TYPE=Net and TYPE=Multi.

  `Record` is the value a container holds; `TypeContainer` is the object
  whose dictionary the operations update in place, and `Model()` reads it
  back as a `Record`.
*/
module SvxlinkType {
  import opened Results
  import opened Ascii
  import opened OrderedDict

  type Pair = (string, string)

  /** What the operations raise. */
  datatype Error =
    | InvalidOption(option: string, section: string)  // an option name outside the allow-list
    | MissingHostOrPort                               // is_online without HOST and TCP_PORT
    | DuplicateSection(section: string)               // the document already has the section
    | NoSection(section: string)                      // the document lacks the section

  const NET_TYPE: string := "Net"
  const NET_OPTIONS: seq<string> := ["TYPE", "HOST", "TCP_PORT", "AUTH_KEY", "CODEC"]
  const MULTI_TYPE: string := "Multi"
  const MULTI_OPTIONS: seq<string> := ["TRANSMITTERS"]

  /** Keys starting with `_` are internal and never listed by `items()`. */
  predicate IsInternal(key: string)
  {
    |key| > 0 && key[0] == '_'
  }

  /** The entries `items()` lists: all non-internal ones, in order. */
  function Visible(s: seq<Pair>): (r: seq<Pair>)
    ensures forall p :: p in r <==> p in s && !IsInternal(p.0)
  {
    if s == [] then []
    else
      assert s == s[..|s| - 1] + [s[|s| - 1]];
      Visible(s[..|s| - 1]) + (if IsInternal(s[|s| - 1].0) then [] else [s[|s| - 1]])
  }

  /** Listing drops nothing when no key is internal. */
  lemma {:induction false} VisibleAll(s: seq<Pair>)
    requires forall i :: 0 <= i < |s| ==> !IsInternal(s[i].0)
    ensures Visible(s) == s
  {
    if s != [] {
      var n := |s| - 1;
      VisibleAll(s[..n]);
      assert !IsInternal(s[n].0);
      assert s[..n] + [s[n]] == s;
    }
  }

  /** Listing keeps distinct keys distinct. */
  lemma {:induction false} VisibleDistinct(s: seq<Pair>)
    requires Distinct(Keys(s))
    ensures Distinct(Keys(Visible(s)))
  {
    if s != [] {
      var n := |s| - 1;
      assert Keys(s[..n]) == Keys(s)[..n];
      VisibleDistinct(s[..n]);
      var v := Visible(s[..n]);
      if !IsInternal(s[n].0) {
        assert s[n].0 !in Keys(v) by {
          forall j | 0 <= j < |v|
            ensures Keys(v)[j] != s[n].0
          {
            assert v[j] in s[..n];
            var i :| 0 <= i < n && s[..n][i] == v[j];
            assert Keys(s)[i] == v[j].0 && Keys(s)[n] == s[n].0;
          }
        }
        DistinctSnoc(v, s[n]);
        assert Visible(s) == v + [s[n]];
      } else {
        assert Visible(s) == v + [];
        assert Visible(s) == v;
      }
    }
  }

  /** The state of one typed section. */
  datatype Record = Record(typeName: string, sectionName: string, validOptions: seq<string>,
                           entries: Entries<string>)
  {
    /** `self[key]`: case-insensitive lookup, `None` when absent. */
    function Get(key: string): (r: Option<string>)
      ensures r.Some? <==> HasOption(key)
      ensures r.Some? ==> (Upper(key), r.value) in entries
      ensures WellFormed() ==> forall v :: (Upper(key), v) in entries ==> r == Some(v)
    {
      assert WellFormed() ==> forall v :: (Upper(key), v) in entries ==> Lookup(entries, Upper(key)) == Some(v) by {
        forall v | (Upper(key), v) in entries && WellFormed() ensures Lookup(entries, Upper(key)) == Some(v) {
          LookupMember(entries, Upper(key), v);
        }
      }
      Lookup(entries, Upper(key))
    }

    /** `has_option`: case-insensitive membership. */
    predicate HasOption(key: string)
      ensures HasOption(key) <==> exists i :: 0 <= i < |entries| && entries[i].0 == Upper(key)
    {
      assert forall i :: 0 <= i < |entries| ==> Keys(entries)[i] == entries[i].0;
      Upper(key) in Keys(entries)
    }

    /** `self[key] = val`: refuse a name outside the allow-list, else store under the upper-cased name. */
    function Set(key: string, val: string): (r: Result<Record, Error>)
      ensures r.Success? <==> Upper(key) in validOptions
      ensures r.Failure? ==> r.error == InvalidOption(key, sectionName)
      ensures r.Success? ==>
                && r.value.typeName == typeName && r.value.sectionName == sectionName
                && r.value.validOptions == validOptions
                && (Upper(key), val) in r.value.entries
    {
      if Upper(key) in validOptions then
        UpdateLookup(entries, Upper(key), val, Upper(key));
        Success(this.(entries := Update(entries, Upper(key), val)))
      else Failure(InvalidOption(key, sectionName))
    }

    /** `items()`. */
    function Items(): (r: seq<Pair>)
      ensures forall p :: p in r <==> p in entries && !IsInternal(p.0)
      ensures WellFormed() ==> Distinct(Keys(r))
    {
      if WellFormed() then VisibleDistinct(entries); Visible(entries)
      else Visible(entries)
    }

    /** What the dictionary looks like whatever was done to it: distinct, upper-case keys. */
    predicate WellFormed()
    {
      Distinct(Keys(entries)) && forall i :: 0 <= i < |entries| ==> IsUpper(entries[i].0)
    }

    /** Every stored key is in the allow-list. */
    predicate KeysAllowed()
    {
      forall i :: 0 <= i < |entries| ==> entries[i].0 in validOptions
    }
  }

  /** A container created without data: only TYPE, set to the type name, bypassing the allow-list. */
  function Seeded(typeName: string, sectionName: string, validOptions: seq<string>): (r: Record)
    ensures r.typeName == typeName && r.sectionName == sectionName && r.validOptions == validOptions
    ensures r.WellFormed() && |r.entries| == 1
    ensures r.Get("TYPE") == Some(typeName) && r.Items() == [("TYPE", typeName)]
  {
    var r := Record(typeName, sectionName, validOptions, [("TYPE", typeName)]);
    AllowListsUpper();
    assert !IsInternal(r.entries[0].0);
    VisibleAll(r.entries);
    r
  }

  /** Apply `Set` to each pair in order; the first refused pair is the error. */
  function Load(r: Record, data: seq<Pair>): (res: Result<Record, Error>)
    decreases |data|
    ensures res.Success? ==>
              res.value.typeName == r.typeName && res.value.sectionName == r.sectionName
              && res.value.validOptions == r.validOptions
    ensures res.Failure? ==>
              && res.error.InvalidOption? && res.error.section == r.sectionName
              && exists i :: 0 <= i < |data| && data[i].0 == res.error.option && Upper(data[i].0) !in r.validOptions
  {
    assert forall i :: 0 < i < |data| ==> data[i] == data[1..][i - 1];
    if data == [] then Success(r)
    else
      match r.Set(data[0].0, data[0].1)
      case Failure(e) => Failure(e)
      case Success(r') => Load(r', data[1..])
  }

  /** `SvxlinkTypeContainer(type_name, section_name, valid_options, data)`. */
  function Construct(typeName: string, sectionName: string, validOptions: seq<string>,
                     data: Option<seq<Pair>>): (r: Result<Record, Error>)
    ensures r.Success? ==>
              && r.value.typeName == typeName && r.value.sectionName == sectionName
              && r.value.validOptions == validOptions && r.value.WellFormed()
    ensures data.None? ==> r.Success? && r.value.Get("TYPE") == Some(typeName)
    ensures data.Some? && r.Success? ==> r.value.KeysAllowed()
    ensures r.Failure? ==> data.Some? && r.error.InvalidOption? && r.error.section == sectionName
  {
    if data.Some? && Load(Record(typeName, sectionName, validOptions, []), data.value).Success? then
      LoadPreserves(Record(typeName, sectionName, validOptions, []), data.value);
      Load(Record(typeName, sectionName, validOptions, []), data.value)
    else
    match data
    case None => Success(Seeded(typeName, sectionName, validOptions))
    case Some(d) => Load(Record(typeName, sectionName, validOptions, []), d)
  }

  /** `SvxlinkTypeNet(section_name, data)`: a Net record that stores only allowed names. */
  function NetRecord(sectionName: string, data: Option<seq<Pair>>): (r: Result<Record, Error>)
    ensures r.Success? ==>
              && r.value.typeName == NET_TYPE && r.value.sectionName == sectionName
              && r.value.validOptions == NET_OPTIONS && r.value.WellFormed() && r.value.KeysAllowed()
    ensures data.None? ==> r.Success? && r.value.Get("TYPE") == Some(NET_TYPE)
    ensures r.Failure? ==> data.Some? && r.error.InvalidOption? && r.error.section == sectionName
  {
    AllowListsUpper();
    Construct(NET_TYPE, sectionName, NET_OPTIONS, data)
  }

  /** `SvxlinkTypeMulti(section_name, data)` as intended: the source's constructor passes the
      undefined class `SvxlinkMulti` to `super`, so every call there raises NameError.
      Without data the record holds TYPE although TYPE is not in its allow-list. */
  function MultiRecord(sectionName: string, data: Option<seq<Pair>>): (r: Result<Record, Error>)
    ensures r.Success? ==>
              && r.value.typeName == MULTI_TYPE && r.value.sectionName == sectionName
              && r.value.validOptions == MULTI_OPTIONS && r.value.WellFormed()
    ensures data.Some? && r.Success? ==> r.value.KeysAllowed()
    ensures data.None? ==> r.Success? && r.value.HasOption("TYPE") && !r.value.KeysAllowed()
    ensures r.Failure? ==> data.Some? && r.error.InvalidOption? && r.error.section == sectionName
  {
    assert |"TYPE"| != |"TRANSMITTERS"|;
    Construct(MULTI_TYPE, sectionName, MULTI_OPTIONS, data)
  }

  /** The reference meaning of "later duplicates overwrite earlier ones":
      the value of the last pair whose upper-cased name is `key`. */
  function LastValue(data: seq<Pair>, key: string): Option<string>
  {
    if data == [] then None
    else
      match LastValue(data[1..], key)
      case Some(v) => Some(v)
      case None => if Upper(data[0].0) == key then Some(data[0].1) else None
  }

  /** The allow-lists are written in upper case, so each name is its own upper-case form. */
  lemma AllowListsUpper()
    ensures forall o :: o in NET_OPTIONS || o in MULTI_OPTIONS ==> IsUpper(o) && Upper(o) == o
  {
  }

  // ---------------------------------------------------------------------
  // Set

  /** A permitted write succeeds; afterwards every spelling of the name reads the value back,
      and every other name reads what it read before. */
  lemma SetGetRoundTrip(r: Record, k: string, v: string, k': string)
    requires Upper(k) in r.validOptions
    ensures r.Set(k, v).Success?
    ensures Upper(k') == Upper(k) ==> r.Set(k, v).value.Get(k') == Some(v) && r.Set(k, v).value.HasOption(k')
    ensures Upper(k') != Upper(k) ==> r.Set(k, v).value.Get(k') == r.Get(k')
  {
    UpdateLookup(r.entries, Upper(k), v, Upper(k'));
  }

  /** A write under a name outside the allow-list fails, naming the option and the section. */
  lemma SetRejects(r: Record, k: string, v: string)
    requires Upper(k) !in r.validOptions
    ensures r.Set(k, v) == Failure(InvalidOption(k, r.sectionName))
  {
  }

  /** Overwriting keeps the key's position; a new key goes to the end. Nothing else changes. */
  lemma SetOrder(r: Record, k: string, v: string)
    requires Upper(k) in r.validOptions
    ensures var r' := r.Set(k, v).value;
      && r'.typeName == r.typeName && r'.sectionName == r.sectionName && r'.validOptions == r.validOptions
      && (Upper(k) in Keys(r.entries) ==> r'.entries == r.entries[IndexOf(r.entries, Upper(k)) := (Upper(k), v)])
      && (Upper(k) !in Keys(r.entries) ==> r'.entries == r.entries + [(Upper(k), v)])
  {
    if Upper(k) in Keys(r.entries) {
      UpdateExisting(r.entries, Upper(k), v);
    } else {
      UpdateNew(r.entries, Upper(k), v);
    }
  }

  /** Writing an upper-case, allowed name not stored yet appends exactly that pair. */
  lemma SetAppends(r: Record, k: string, v: string)
    requires k in r.validOptions && IsUpper(k) && k !in Keys(r.entries)
    ensures r.Set(k, v) == Success(r.(entries := r.entries + [(k, v)]))
  {
    UpperOfUpper(k);
    UpdateNew(r.entries, k, v);
  }

  /** A successful write keeps the keys distinct and upper-case, and allowed if they were. */
  lemma SetPreserves(r: Record, k: string, v: string)
    requires r.Set(k, v).Success?
    ensures r.WellFormed() ==> r.Set(k, v).value.WellFormed()
    ensures r.KeysAllowed() ==> r.Set(k, v).value.KeysAllowed()
  {
    var K := Upper(k);
    var e' := Update(r.entries, K, v);
    UpdateKeys(r.entries, K, v);
    UpperIsUpper(k);
    forall i | 0 <= i < |e'|
      ensures e'[i].0 == K || exists j :: 0 <= j < |r.entries| && r.entries[j].0 == e'[i].0
    {
      assert Keys(e')[i] == e'[i].0;
      if e'[i].0 != K {
        assert e'[i].0 in Keys(r.entries);
        var j :| 0 <= j < |r.entries| && Keys(r.entries)[j] == e'[i].0;
      }
    }
  }

  // ---------------------------------------------------------------------
  // Construction

  /** Construction without data holds exactly TYPE = type name, and lists it. */
  lemma ConstructWithoutData(typeName: string, sectionName: string, validOptions: seq<string>)
    ensures var r := Construct(typeName, sectionName, validOptions, None);
      && r.Success? && r.value.entries == [("TYPE", typeName)]
      && r.value.Items() == [("TYPE", typeName)] && r.value.WellFormed()
  {
    var r := Seeded(typeName, sectionName, validOptions);
    assert !IsInternal(r.entries[0].0);
    VisibleAll(r.entries);
    AllowListsUpper();
  }

  /** A fresh Net section stores only allowed keys; a fresh Multi section stores TYPE,
      though TYPE is not in its allow-list. */
  lemma SeedAgainstAllowList(s: string)
    ensures NetRecord(s, None).value.KeysAllowed()
    ensures !MultiRecord(s, None).value.KeysAllowed() && MultiRecord(s, None).value.HasOption("TYPE")
  {
    var m := MultiRecord(s, None).value;
    assert m.entries[0].0 == "TYPE";
    assert |"TYPE"| != |"TRANSMITTERS"|;
    AllowListsUpper();
    assert Keys(m.entries)[0] == "TYPE";
  }

  /** Loading succeeds exactly when every name is allowed; otherwise the error names the first
      refused pair. */
  lemma {:induction false} LoadSucceedsIff(r: Record, data: seq<Pair>)
    decreases |data|
    ensures Load(r, data).Success? <==> forall i :: 0 <= i < |data| ==> Upper(data[i].0) in r.validOptions
    ensures Load(r, data).Failure? ==>
      exists j :: 0 <= j < |data| && Upper(data[j].0) !in r.validOptions
        && (forall i :: 0 <= i < j ==> Upper(data[i].0) in r.validOptions)
        && Load(r, data).error == InvalidOption(data[j].0, r.sectionName)
  {
    if data != [] && Upper(data[0].0) in r.validOptions {
      var r' := r.Set(data[0].0, data[0].1).value;
      LoadSucceedsIff(r', data[1..]);
      assert forall i :: 0 < i < |data| ==> data[i] == data[1..][i - 1];
      if Load(r, data).Failure? {
        var j :| 0 <= j < |data[1..]| && Upper(data[1..][j].0) !in r'.validOptions
          && (forall i :: 0 <= i < j ==> Upper(data[1..][i].0) in r'.validOptions)
          && Load(r', data[1..]).error == InvalidOption(data[1..][j].0, r'.sectionName);
        assert forall i :: 0 <= i < j + 1 ==> Upper(data[i].0) in r.validOptions by {
          forall i | 0 <= i < j + 1 ensures Upper(data[i].0) in r.validOptions {
            if i > 0 { assert data[i] == data[1..][i - 1]; }
          }
        }
      }
    }
  }

  /** Loading keeps the type, section and allow-list, and keeps keys distinct, upper-case and allowed. */
  lemma {:induction false} LoadPreserves(r: Record, data: seq<Pair>)
    requires Load(r, data).Success?
    decreases |data|
    ensures var r' := Load(r, data).value;
      && r'.typeName == r.typeName && r'.sectionName == r.sectionName && r'.validOptions == r.validOptions
      && (r.WellFormed() ==> r'.WellFormed())
      && (r.KeysAllowed() ==> r'.KeysAllowed())
  {
    if data != [] {
      SetPreserves(r, data[0].0, data[0].1);
      LoadPreserves(r.Set(data[0].0, data[0].1).value, data[1..]);
    }
  }

  /** After loading, each name reads the value of the last pair that spelled it (in any case),
      and names no pair spelled read what they read before. */
  lemma {:induction false} LoadGet(r: Record, data: seq<Pair>, k: string)
    requires Load(r, data).Success?
    decreases |data|
    ensures Load(r, data).value.Get(k) == if LastValue(data, Upper(k)).Some? then LastValue(data, Upper(k)) else r.Get(k)
  {
    if data != [] {
      var r' := r.Set(data[0].0, data[0].1).value;
      UpdateLookup(r.entries, Upper(data[0].0), data[0].1, Upper(k));
      LoadGet(r', data[1..], k);
    }
  }

  /** Construction from data yields distinct, upper-case, allowed keys, and each name reads
      its last value in the data. */
  lemma ConstructFromData(typeName: string, sectionName: string, validOptions: seq<string>,
                          data: seq<Pair>, k: string)
    requires Construct(typeName, sectionName, validOptions, Some(data)).Success?
    ensures var r := Construct(typeName, sectionName, validOptions, Some(data)).value;
      && r.sectionName == sectionName && r.WellFormed() && r.KeysAllowed()
      && r.Get(k) == LastValue(data, Upper(k))
      && (r.HasOption(k) <==> LastValue(data, Upper(k)).Some?)
  {
    var empty := Record(typeName, sectionName, validOptions, []);
    LoadPreserves(empty, data);
    LoadGet(empty, data, k);
  }

  /** For the two section types nothing stored is internal, so `items()` lists every entry. */
  lemma VariantItems(r: Record)
    requires r.validOptions == NET_OPTIONS || r.validOptions == MULTI_OPTIONS
    requires forall i :: 0 <= i < |r.entries| ==> r.entries[i].0 in r.validOptions || r.entries[i].0 == "TYPE"
    ensures r.Items() == r.entries
  {
    forall i | 0 <= i < |r.entries| ensures !IsInternal(r.entries[i].0) {
      assert r.entries[i].0[0] != '_';
    }
    VisibleAll(r.entries);
  }

  // ---------------------------------------------------------------------
  // The container object

  /** A typed section whose dictionary is updated in place. */
  class TypeContainer {
    const typeName: string
    const sectionName: string
    const validOptions: seq<string>
    var entries: Entries<string>

    function Model(): Record
      reads this
    {
      Record(typeName, sectionName, validOptions, entries)
    }

    ghost predicate Valid()
      reads this
    {
      Model().WellFormed()
    }

    /** The attributes and an empty dictionary. */
    constructor (typeName: string, sectionName: string, validOptions: seq<string>)
      ensures Valid() && Model() == Record(typeName, sectionName, validOptions, [])
    {
      this.typeName := typeName;
      this.sectionName := sectionName;
      this.validOptions := validOptions;
      this.entries := [];
    }

    /** `__init__`: seed TYPE when no data is given, otherwise add the pairs one by one. */
    static method Create(typeName: string, sectionName: string, validOptions: seq<string>,
                         data: Option<seq<Pair>>) returns (r: Result<TypeContainer, Error>)
      ensures r.Success? <==> Construct(typeName, sectionName, validOptions, data).Success?
      ensures r.Success? ==>
                fresh(r.value) && r.value.Valid()
                && Construct(typeName, sectionName, validOptions, data) == Success(r.value.Model())
      ensures r.Failure? ==> Construct(typeName, sectionName, validOptions, data) == Failure(r.error)
    {
      var c := new TypeContainer(typeName, sectionName, validOptions);
      match data {
        case None =>
          c.entries := [("TYPE", typeName)];
          ConstructWithoutData(typeName, sectionName, validOptions);
          r := Success(c);
        case Some(d) =>
          for i := 0 to |d|
            invariant c.Valid()
            invariant Load(Record(typeName, sectionName, validOptions, []), d) == Load(c.Model(), d[i..])
          {
            assert d[i..][0] == d[i] && d[i..][1..] == d[i + 1..];
            var ok := c.CheckAndUpdate(d[i].0, d[i].1);
            if ok.Fail? {
              return Failure(ok.error);
            }
          }
          r := Success(c);
      }
    }

    /** `__check_item_and_update`: refuse a name outside the allow-list before touching the
        dictionary; otherwise store the value under the upper-cased name. */
    method CheckAndUpdate(key: string, val: string) returns (r: Outcome<Error>)
      requires Valid()
      modifies this
      ensures Valid()
      ensures r.Pass? <==> Upper(key) in validOptions
      ensures r.Pass? ==> entries == Update(old(entries), Upper(key), val)
      ensures r.Fail? ==> entries == old(entries) && r.error == InvalidOption(key, sectionName)
    {
      var k := Upper(key);
      if k !in validOptions {
        return Fail(InvalidOption(key, sectionName));
      }
      SetPreserves(Model(), key, val);
      entries := Update(entries, k, val);
      r := Pass;
    }

    /** `self[key] = val`: exactly `Record.Set` on the current state. */
    method SetItem(key: string, val: string) returns (r: Outcome<Error>)
      requires Valid()
      modifies this
      ensures Valid()
      ensures old(Model()).Set(key, val) == if r.Pass? then Success(Model()) else Failure(r.error)
      ensures r.Fail? ==> entries == old(entries)
    {
      r := CheckAndUpdate(key, val);
    }

    /** `items()`: walk the dictionary, skip internal keys, and pair each key with `self[key]`. */
    method Items() returns (output: seq<Pair>)
      requires Valid()
      ensures output == Model().Items()
      ensures Distinct(Keys(output))
    {
      output := [];
      for i := 0 to |entries|
        invariant output == Visible(entries[..i])
      {
        var item := entries[i].0;
        if !IsInternal(item) {
          UpperOfUpper(item);
          DistinctLookup(entries, i);
          var v := Model().Get(item);
          output := output + [(item, v.value)];
        }
        assert entries[..i + 1][..i] == entries[..i];
      }
      assert entries[..|entries|] == entries;
      VisibleDistinct(entries);
    }

    /** The check `is_online` makes before any network action: HOST and TCP_PORT must be set.
        `connect` stands for the TCP connect attempt and its outcome. */
    method IsOnline(connect: (string, string) -> bool) returns (r: Result<bool, Error>)
      requires typeName == NET_TYPE
      ensures r.Failure? <==> !(Model().HasOption("TCP_PORT") && Model().HasOption("HOST"))
      ensures r.Failure? ==> r.error == MissingHostOrPort
      ensures r.Success? ==> r.value == connect(Model().Get("HOST").value, Model().Get("TCP_PORT").value)
    {
      if !(Model().HasOption("TCP_PORT") && Model().HasOption("HOST")) {
        return Failure(MissingHostOrPort);
      }
      r := Success(connect(Model().Get("HOST").value, Model().Get("TCP_PORT").value));
    }
  }

  /** `SvxlinkTypeNet(section_name, data)`. */
  method NewNet(sectionName: string, data: Option<seq<Pair>>) returns (r: Result<TypeContainer, Error>)
    ensures r.Success? ==> fresh(r.value) && r.value.Valid() && NetRecord(sectionName, data) == Success(r.value.Model())
    ensures r.Failure? ==> NetRecord(sectionName, data) == Failure(r.error)
  {
    r := TypeContainer.Create(NET_TYPE, sectionName, NET_OPTIONS, data);
  }

  /** `SvxlinkTypeMulti(section_name, data)` as intended; the source's `super(SvxlinkMulti, ...)`
      names an undefined class and raises NameError. */
  method NewMulti(sectionName: string, data: Option<seq<Pair>>) returns (r: Result<TypeContainer, Error>)
    ensures r.Success? ==> fresh(r.value) && r.value.Valid() && MultiRecord(sectionName, data) == Success(r.value.Model())
    ensures r.Failure? ==> MultiRecord(sectionName, data) == Failure(r.error)
  {
    r := TypeContainer.Create(MULTI_TYPE, sectionName, MULTI_OPTIONS, data);
  }
}
