// Writing to the store: saving, deleting, and the sweep that turns plain files
// into encrypted ones.
module Migration {
  import opened Text
  import opened Config
  import opened Names
  import opened Parser
  import opened Writer
  import opened RoundTrip
  import opened Parsed
  import opened HopScan
  import opened Store

  // The file a config is saved to, and what is written there.
  function Target(c: Config): string {
    if c.iface.Text(PinEndpointVia) != "" then PlainName(c.name) else SealedName(c.name)
  }

  function Written(c: Config, text: string): File {
    File(if c.iface.Text(PinEndpointVia) != "" then Plain(text) else Sealed(c.name, text), true, true)
  }

  // How one file fares in the sweep. Stopped is a text at which the parser
  // stops for good, and the sweep with it.
  datatype Fate = Untouched | Migrated | Stopped

  // The plain file of a tunnel that the sweep reads: a regular, readable file
  // that does not look like a chain hop.
  predicate Candidate(r: Reader, d: Dir, name: string) {
    var f := PlainName(name);
    && name != "" && f in d && d[f].regular && d[f].readable && d[f].content.Plain?
    && !r.isHop(d[f].content.text)
  }

  // What the sweep makes of it when nothing is refused: sealed when it parses,
  // pins nothing and has no sealed twin.
  predicate Migratable(r: Reader, d: Dir, name: string) {
    && Candidate(r, d, name) && SealedName(name) !in d
    && var p := r.parse(d[PlainName(name)].content.text, name);
       p.Ok? && p.value.iface.Text(PinEndpointVia) == ""
  }

  predicate StopsSweep(r: Reader, d: Dir, name: string) {
    Candidate(r, d, name) && r.parse(d[PlainName(name)].content.text, name) == Err(NilPrefix)
  }

  // The directory. `disk` says whether the k-th request is granted.
  class ConfigStore {
    const disk: nat -> bool
    var files: Dir
    var asked: nat

    constructor (d: Dir, disk: nat -> bool)
      ensures files == d && this.disk == disk && asked == 0
    {
      files := d;
      this.disk := disk;
      asked := 0;
    }

    method Ask() returns (granted: bool)
      modifies this`asked
      ensures granted == disk(old(asked)) && asked == old(asked) + 1
    {
      granted := disk(asked);
      asked := asked + 1;
    }

    // Config.Save: it succeeds exactly for a valid name whose file may be
    // written, when the disk agrees.
    method Save(c: Config, overwrite: bool) returns (ok: bool, order: seq<PacketKey>)
      modifies this
      ensures VisitOrder(order, c.iface.iPackets)
      ensures ok <==> ValidName(c.name) && (overwrite || Target(c) !in old(files)) && disk(old(asked))
      ensures files == if ok then old(files)[Target(c) := Written(c, Print(c, order))] else old(files)
    {
      var text;
      text, order := ToWgQuick(c);
      if !ValidName(c.name) {
        return false, order;
      }
      if !overwrite && Target(c) in files {
        return false, order;
      }
      var granted := Ask();
      if !granted {
        return false, order;
      }
      files := files[Target(c) := Written(c, text)];
      ok := true;
    }

    // os.Remove; a missing file is no refusal.
    method Remove(f: string) returns (removed: bool, refused: bool)
      modifies this
      ensures removed == (f in old(files) && disk(old(asked))) && refused == (f in old(files) && !disk(old(asked)))
      ensures files == (if disk(old(asked)) then old(files) - {f} else old(files)) && asked == old(asked) + 1
    {
      var granted := Ask();
      removed, refused := f in files && granted, f in files && !granted;
      if removed {
        files := files - {f};
      }
    }

    // DeleteName removes both files of a name as far as the disk lets it, and
    // complains only when one was refused and none removed.
    method DeleteName(name: string) returns (ok: bool)
      modifies this
      ensures !ValidName(name) ==> !ok && files == old(files)
      ensures ValidName(name) ==>
        var s, p := SealedName(name), PlainName(name);
        var first, second := disk(old(asked)), disk(old(asked) + 1);
        && files == old(files) - ((if first then {s} else {}) + (if second then {p} else {}))
        && (!ok <==> ((s in old(files) && !first) || (p in old(files) && !second))
                     && !(s in old(files) && first) && !(p in old(files) && second))
    {
      ok := ValidName(name);
      if ok {
        PlainIsNotSealed(name, name);
        var removed1, refused1 := Remove(SealedName(name));
        var removed2, refused2 := Remove(PlainName(name));
        ok := !(refused1 || refused2) || removed1 || removed2;
      }
    }

    // One turn of the migration loop. Opening, writing or removing may be
    // refused, and a refusal leaves the rest of the files alone.
    method MigrateOne(f: string) returns (fate: Fate, ghost c: Config, ghost saved: string)
      requires f in files
      modifies this
      ensures !fate.Migrated? ==> files == old(files)
      ensures fate.Migrated? ==> Ingests(WG_QUICK, old(files), files, f, c, saved)
      ensures fate.Migrated? ==> AfterSave(c) == OfParse(WG_QUICK.parse(saved, c.name))
      ensures fate.Stopped? ==> IsPlain(f) && StopsSweep(WG_QUICK, old(files), NameOf(f))
      ensures Willing(disk) ==> Diligent(WG_QUICK, old(files), files, f, fate)
    {
      fate := Untouched;
      c, saved := Config("", BLANK_INTERFACE, []), "";
      if |f| <= 5 || !HasSuffix(f, PLAIN_SUFFIX) {
        return;
      }
      var name := f[..|f| - 5];
      assert f == PlainName(name);
      if !files[f].regular || !files[f].readable || !files[f].content.Plain? {
        return;
      }
      var text := files[f].content.text;
      var hop := TextIsChainHop(text);
      if hop {
        return;
      }
      var granted := Ask();
      if !granted {
        return;
      }
      var config := FromWgQuick(text, name);
      if config.Err? {
        fate := if config.error.NilPrefix? then Stopped else Untouched;
        return;
      }
      ParsedName(text, name);
      fate, c, saved := SealOne(f, text, config.value);
    }

    // The second half of the turn: the text has been read as `config`.
    method SealOne(f: string, text: string, config: Config) returns (fate: Fate, ghost c: Config, ghost saved: string)
      requires f == PlainName(config.name) && config.name != "" && Candidate(WG_QUICK, files, config.name)
      requires files[f].content.text == text && Parse(text, config.name) == Ok(config) && ValidName(config.name)
      modifies this
      ensures fate == Untouched || fate == Migrated
      ensures fate.Untouched? ==> files == old(files)
      ensures fate.Migrated? ==> Ingests(WG_QUICK, old(files), files, f, c, saved)
      ensures fate.Migrated? ==> AfterSave(c) == OfParse(WG_QUICK.parse(saved, c.name))
      ensures Willing(disk) ==> (fate.Migrated? <==> Migratable(WG_QUICK, old(files), config.name))
      ensures Willing(disk) && fate.Migrated? ==> f !in files
    {
      c, saved := config, "";
      var ok, order := Save(config, false);
      if !ok {
        return Untouched, c, saved;
      }
      saved := Print(config, order);
      // A config that pins its endpoint would have been saved over the file it
      // was read from, which is refused.
      assert c.iface.Text(PinEndpointVia) == "";
      ResavedText(text, c, order);
      var _, _ := Remove(f);
      fate := Migrated;
    }

    // What holds after the first k files were read.
    ghost predicate Swept(start: Dir, migrated: set<string>, names: seq<string>, k: nat)
      requires k <= |names|
      reads this
    {
      && Reading(names, start) && Keeps(WG_QUICK, AfterSave, start, files, migrated)
      && (forall j :: k <= j < |names| ==> names[j] in files)
      && (Willing(disk) ==> DoneUpTo(WG_QUICK, start, files, migrated, names, k))
    }

    // One turn within the sweep; `sealed` is the name it migrated, if any.
    method MigrateNext(names: seq<string>, k: nat, ghost start: Dir, ghost migrated: set<string>) returns (stopped: bool, ghost sealed: set<string>)
      requires k < |names| && Swept(start, migrated, names, k)
      modifies this
      ensures stopped ==> files == old(files) && sealed == {} && (Willing(disk) ==> !NothingStops(WG_QUICK, start))
      ensures !stopped ==> Swept(start, migrated + sealed, names, k + 1)
    {
      ghost var before := files;
      var fate, c, saved := MigrateOne(names[k]);
      sealed := {};
      if fate.Stopped? {
        if Willing(disk) {
          NextIsFresh(WG_QUICK, AfterSave, start, before, migrated, names, k);
        }
        return true, {};
      }
      if fate.Migrated? {
        KeepsStep(WG_QUICK, AfterSave, start, before, files, migrated, names[k], c, saved);
        SealsNoPlain(before, files, c.name, File(Sealed(c.name, saved), true, true));
        sealed := {c.name};
        forall j | k < j < |names| ensures names[j] in files {
          assert names[j] != names[k];
        }
      }
      if Willing(disk) {
        TurnDone(WG_QUICK, AfterSave, start, before, files, migrated, names, k, fate, c.name);
      }
      assert migrated + {} == migrated;
      return false, sealed;
    }

    // migrateUnencryptedConfigs, for any order in which the directory is read
    // and any refusals on the way. A text at which the parser stops ends it.
    method Migrate(names: seq<string>) returns (ghost migrated: set<string>)
      requires Reading(names, files)
      modifies this
      ensures Keeps(WG_QUICK, AfterSave, old(files), files, migrated)
      ensures Willing(disk) && NothingStops(WG_QUICK, old(files)) ==> Complete(WG_QUICK, old(files), files, migrated)
    {
      migrated := {};
      ghost var start := files;
      KeepsNothing(WG_QUICK, AfterSave, start);
      for k := 0 to |names|
        invariant Swept(start, migrated, names, k)
      {
        var stopped;
        ghost var sealed;
        stopped, sealed := MigrateNext(names, k, start, migrated);
        if stopped {
          return;
        }
        migrated := migrated + sealed;
      }
      if Willing(disk) {
        AllDone(WG_QUICK, AfterSave, start, files, migrated, names);
      }
    }
  }

  // The disk refuses nothing.
  ghost predicate Willing(disk: nat -> bool) {
    forall k: nat :: disk(k)
  }

  predicate IsPlain(f: string) {
    |f| > 5 && HasSuffix(f, PLAIN_SUFFIX)
  }

  function NameOf(f: string): (name: string)
    requires |f| > 5
  {
    f[..|f| - 5]
  }

  // With nothing refused, a file is sealed and removed exactly when it can be.
  ghost predicate Diligent(r: Reader, d: Dir, d': Dir, f: string, fate: Fate) {
    && (fate.Migrated? <==> IsPlain(f) && Migratable(r, d, NameOf(f)))
    && (fate.Migrated? ==> f !in d')
  }

  ghost predicate NothingStops(r: Reader, d: Dir) {
    forall n :: !StopsSweep(r, d, n)
  }

  // The sweep has sealed exactly the files it could seal, and removed their plain forms.
  ghost predicate Complete(r: Reader, d: Dir, d': Dir, migrated: set<string>) {
    forall n :: (n in migrated <==> Migratable(r, d, n)) && (n in migrated ==> PlainName(n) !in d' && SealedName(n) in d')
  }

  // Which files those are: regular, readable plain files with a name and without
  // a sealed twin, that do not look like a chain hop and parse as a config that
  // pins nothing.
  lemma {:induction false} SealedExactly(d: Dir, d': Dir, migrated: set<string>, name: string)
    requires Complete(WG_QUICK, d, d', migrated)
    ensures name in migrated <==>
      && name != "" && Usable(d, PlainName(name)) && SealedName(name) !in d
      && d[PlainName(name)].content.Plain?
      && var text := d[PlainName(name)].content.text;
         !IsHopText(text) && Parse(text, name).Ok? && Parse(text, name).value.iface.Text(PinEndpointVia) == ""
  {
    assert name in migrated <==> Migratable(WG_QUICK, d, name);
  }

  // The same over the files read so far.
  ghost predicate DoneUpTo(r: Reader, d: Dir, d': Dir, migrated: set<string>, names: seq<string>, k: nat)
    requires k <= |names|
  {
    forall n :: (n in migrated <==> Migratable(r, d, n) && PlainName(n) in names[..k]) && (n in migrated ==> PlainName(n) !in d')
  }

  // A name whose files are as they were fares as it would have at the start.
  lemma {:induction false} SameFate(r: Reader, d: Dir, d': Dir, n: string)
    requires SameFiles(d, d', n)
    ensures Migratable(r, d, n) <==> Migratable(r, d', n)
    ensures StopsSweep(r, d, n) <==> StopsSweep(r, d', n)
  {
  }

  // The file read next belongs to a name that has not been migrated.
  lemma {:induction false} NextIsFresh(r: Reader, after: Config -> LoadResult, start: Dir, d: Dir, migrated: set<string>, names: seq<string>, k: nat)
    requires k < |names| && names[k] in d && IsPlain(names[k])
    requires Keeps(r, after, start, d, migrated) && DoneUpTo(r, start, d, migrated, names, k)
    ensures
      var n := NameOf(names[k]);
      && names[k] == PlainName(n) && n !in migrated
      && (Migratable(r, start, n) <==> Migratable(r, d, n)) && (StopsSweep(r, start, n) <==> StopsSweep(r, d, n))
  {
    var n := NameOf(names[k]);
    assert names[k] == PlainName(n);
    assert SameFiles(start, d, n);
    SameFate(r, start, d, n);
  }

  lemma {:induction false} TurnDone(r: Reader, after: Config -> LoadResult, start: Dir, d: Dir, d': Dir, migrated: set<string>, names: seq<string>, k: nat, fate: Fate, name: string)
    requires k < |names| && names[k] in d && Reading(names, start)
    requires Keeps(r, after, start, d, migrated) && DoneUpTo(r, start, d, migrated, names, k)
    requires Diligent(r, d, d', names[k], fate) && forall f :: f in d' && IsPlain(f) ==> f in d
    requires fate.Migrated? ==> names[k] == PlainName(name)
    ensures DoneUpTo(r, start, d', if fate.Migrated? then migrated + {name} else migrated, names, k + 1)
  {
    var more := if fate.Migrated? then migrated + {name} else migrated;
    assert names[..k + 1] == names[..k] + [names[k]];
    if IsPlain(names[k]) {
      NextIsFresh(r, after, start, d, migrated, names, k);
    }
    forall n
      ensures n in more <==> Migratable(r, start, n) && PlainName(n) in names[..k + 1]
      ensures n in more ==> PlainName(n) !in d'
    {
      TurnDoneAt(r, start, d, d', migrated, names, k, fate, name, n);
    }
  }

  lemma {:induction false} TurnDoneAt(r: Reader, start: Dir, d: Dir, d': Dir, migrated: set<string>, names: seq<string>, k: nat, fate: Fate, name: string, n: string)
    requires k < |names| && names[k] in d && Reading(names, start)
    requires DoneUpTo(r, start, d, migrated, names, k)
    requires Diligent(r, d, d', names[k], fate) && forall f :: f in d' && IsPlain(f) ==> f in d
    requires fate.Migrated? ==> names[k] == PlainName(name)
    requires IsPlain(names[k]) ==>
      NameOf(names[k]) !in migrated && (Migratable(r, start, NameOf(names[k])) <==> Migratable(r, d, NameOf(names[k])))
    ensures
      var more := if fate.Migrated? then migrated + {name} else migrated;
      && (n in more <==> Migratable(r, start, n) && PlainName(n) in names[..k + 1])
      && (n in more ==> PlainName(n) !in d')
  {
    assert names[..k + 1] == names[..k] + [names[k]];
    PlainNameInjective(n, name);
    if n != "" {
      PlainIsPlain(n);
    }
  }

  lemma {:induction false} PlainIsPlain(n: string)
    requires n != ""
    ensures IsPlain(PlainName(n)) && NameOf(PlainName(n)) == n
  {
    assert PlainName(n)[|n|..] == PLAIN_SUFFIX;
  }

  lemma {:induction false} AllDone(r: Reader, after: Config -> LoadResult, start: Dir, d: Dir, migrated: set<string>, names: seq<string>)
    requires Reading(names, start) && Keeps(r, after, start, d, migrated)
    requires DoneUpTo(r, start, d, migrated, names, |names|)
    ensures Complete(r, start, d, migrated)
  {
    assert names[..|names|] == names;
  }

  // Sealing adds no plain file.
  lemma {:induction false} SealsNoPlain(d: Dir, d': Dir, name: string, file: File)
    requires Seals(d, d', name, file)
    ensures forall f :: f in d' && IsPlain(f) ==> f in d
  {
    var s := SealedName(name);
    assert |s| >= 11 && s[|s| - 5..][4] == s[|s| - 1] == 'i';
    assert PLAIN_SUFFIX[4] == 'f';
  }

  lemma {:induction false} ParsedName(text: string, name: string)
    requires Parse(text, name).Ok?
    ensures Parse(text, name).value.name == name && ValidName(name)
  {
  }

  // The plain file of a name gives way to an encrypted one; the plain file is
  // gone, or could not be removed.
  ghost predicate Seals(d: Dir, d': Dir, name: string, file: File) {
    && PlainName(name) in d
    && SealedName(name) !in d
    && var sealed := d[SealedName(name) := file];
       (d' == sealed || d' == sealed - {PlainName(name)})
  }

  // The plain file f, which is no chain hop, has been read, and its config saved.
  ghost predicate Ingests(r: Reader, d: Dir, d': Dir, f: string, c: Config, saved: string) {
    && f == PlainName(c.name) && f in d
    && d[f].regular && d[f].readable && d[f].content.Plain?
    && !r.isHop(d[f].content.text)
    && r.parse(d[f].content.text, c.name) == Ok(c)
    && r.validName(c.name)
    && c.name != ""
    && Seals(d, d', c.name, File(Sealed(c.name, saved), true, true))
  }

  // A sweep keeps the listed names, the plain files of chain hops and what every
  // name loads; a migrated name loads what saving made of its config.
  ghost predicate Keeps(r: Reader, after: Config -> LoadResult, d: Dir, d': Dir, migrated: set<string>) {
    && (forall n :: Listed(r, d, n) <==> Listed(r, d', n))
    && (forall n :: HopAt(r, d, n) <==> HopAt(r, d', n))
    && (forall n :: HopAt(r, d, n) ==> SameFiles(d, d', n))
    && (forall n :: n !in migrated ==> SameFiles(d, d', n))
    && (forall n :: n in migrated ==> Load(r, d, n).Loaded? && SealedName(n) in d'
                                      && Load(r, d', n) == after(Load(r, d, n).config))
  }

  ghost predicate SameFiles(d: Dir, d': Dir, n: string) {
    && (PlainName(n) in d <==> PlainName(n) in d')
    && (PlainName(n) in d ==> d[PlainName(n)] == d'[PlainName(n)])
    && (SealedName(n) in d <==> SealedName(n) in d')
    && (SealedName(n) in d ==> d[SealedName(n)] == d'[SealedName(n)])
  }

  lemma {:induction false} KeepsNothing(r: Reader, after: Config -> LoadResult, d: Dir)
    ensures Keeps(r, after, d, d, {})
  {
  }

  // Only the two files of the migrated name change.
  lemma {:induction false} SealsOwnFiles(d: Dir, d': Dir, name: string, file: File, n: string)
    requires Seals(d, d', name, file) && n != name
    ensures SameFiles(d, d', n)
  {
    PlainNameInjective(n, name);
    SealedNameInjective(n, name);
    PlainIsNotSealed(n, name);
    PlainIsNotSealed(name, n);
  }

  lemma {:induction false} IngestsLoads(r: Reader, d: Dir, d': Dir, f: string, c: Config, saved: string)
    requires Ingests(r, d, d', f, c, saved)
    ensures Load(r, d, c.name) == Store.Loaded(c) && !HopAt(r, d, c.name) && !HopAt(r, d', c.name)
    ensures Listed(r, d, c.name) && Listed(r, d', c.name) && SealedName(c.name) in d'
    ensures Load(r, d', c.name) == OfParse(r.parse(saved, c.name))
  {
    PlainIsNotSealed(c.name, c.name);
    assert SealedName(c.name) in d' && d'[SealedName(c.name)] == File(Sealed(c.name, saved), true, true);
  }

  lemma {:induction false} KeepsStep(r: Reader, after: Config -> LoadResult, start: Dir, d: Dir, d': Dir, migrated: set<string>, f: string, c: Config, saved: string)
    requires Keeps(r, after, start, d, migrated) && Ingests(r, d, d', f, c, saved)
    requires after(c) == OfParse(r.parse(saved, c.name))
    ensures Keeps(r, after, start, d', migrated + {c.name})
  {
    IngestsLoads(r, d, d', f, c, saved);
    assert SameFiles(start, d, c.name);
    LoadDepends(r, start, d, c.name);
    forall n | n != c.name
      ensures SameFiles(d, d', n) && Load(r, d, n) == Load(r, d', n)
      ensures HopAt(r, d, n) == HopAt(r, d', n) && Listed(r, d, n) == Listed(r, d', n)
    {
      SealsOwnFiles(d, d', c.name, File(Sealed(c.name, saved), true, true), n);
      LoadDepends(r, d, d', n);
    }
  }

  // What loading gives once a loaded config has been saved.
  function AfterSave(c: Config): LoadResult {
    if NoOddHost(c) then Store.Loaded(Normal(c)) else Failed(BadText(BadValue))
  }

  lemma {:induction false} ResavedText(text: string, c: Config, order: seq<PacketKey>)
    requires Parse(text, c.name) == Ok(c) && VisitOrder(order, c.iface.iPackets)
    ensures AfterSave(c) == OfParse(Parse(Print(c, order), c.name))
  {
    Reload(text, c.name, order);
  }

  // ----- what the sweep means for a caller -----

  // The same config, up to a keepalive that is switched off.
  predicate SameLoad(a: LoadResult, b: LoadResult) {
    b == a || (a.Loaded? && b == Store.Loaded(Normal(a.config)))
  }

  // A sweep keeps the list, and it keeps what every name loads exactly when no
  // config it migrated has an endpoint host that starts with ':' and ends with ']'.
  lemma {:induction false} MigrationKeepsLoads(d: Dir, d': Dir, migrated: set<string>)
    requires Keeps(WG_QUICK, AfterSave, d, d', migrated)
    ensures forall n :: Listed(WG_QUICK, d, n) <==> Listed(WG_QUICK, d', n)
    ensures (forall n :: SameLoad(Load(WG_QUICK, d, n), Load(WG_QUICK, d', n))) <==>
            (forall n :: n in migrated ==> NoOddHost(Load(WG_QUICK, d, n).config))
  {
    KeptLoads(WG_QUICK, d, d', migrated);
  }

  lemma {:induction false} KeptLoads(r: Reader, d: Dir, d': Dir, migrated: set<string>)
    requires Keeps(r, AfterSave, d, d', migrated)
    ensures (forall n :: SameLoad(Load(r, d, n), Load(r, d', n))) <==>
            (forall n :: n in migrated ==> NoOddHost(Load(r, d, n).config))
  {
    forall n ensures SameLoad(Load(r, d, n), Load(r, d', n)) <==> (n in migrated ==> NoOddHost(Load(r, d, n).config)) {
      if n !in migrated {
        assert SameFiles(d, d', n);
        LoadDepends(r, d, d', n);
      }
    }
  }

  // Saving a well-formed config and loading its name gives the config back
  // exactly when nothing stands in front of what was written: for a config that
  // pins nothing, the plain file of a chain hop of its name; for one that does
  // and is not taken for a hop, a sealed file of its name that does not happen
  // to hold the same.
  lemma {:induction false} SaveThenLoad(d: Dir, c: Config, order: seq<PacketKey>)
    requires ValidName(c.name) && WellFormed(c) && VisitOrder(order, c.iface.iPackets)
    ensures
      var text := Print(c, order);
      var loaded := Load(WG_QUICK, d[Target(c) := Written(c, text)], c.name);
      var pinned := c.iface.Text(PinEndpointVia) != "";
      && (!pinned ==> (loaded == Store.Loaded(c) <==> !HopAt(WG_QUICK, d, c.name)))
      && (pinned ==> (loaded == Store.Loaded(c) <==>
            IsHopText(text) || SealedName(c.name) !in d || LoadSealed(WG_QUICK, d, c.name) == Store.Loaded(c)))
      && (pinned && LinesFit(Split(text, '\n')) ==> loaded == Store.Loaded(c))
  {
    var text := Print(c, order);
    PrintThenParse(c, order);
    ScanAgrees(text, c.name, c);
    if c.iface.Text(PinEndpointVia) != "" {
      PinnedLoads(WG_QUICK, d, c, text);
    } else {
      if HopAt(WG_QUICK, d, c.name) {
        HopInFront(d, c.name, c);
      }
      UnpinnedLoads(WG_QUICK, d, c, text);
    }
  }

  // What the plain file of a chain hop loads is not a config without a pin.
  lemma {:induction false} HopInFront(d: Dir, name: string, c: Config)
    requires HopAt(WG_QUICK, d, name) && c.iface.Text(PinEndpointVia) == ""
    ensures LoadPlain(WG_QUICK, d, name) != Store.Loaded(c)
  {
    var text := d[PlainName(name)].content.text;
    if Parse(text, name) == Ok(c) {
      ScanAgrees(text, name, c);
    }
  }

  lemma {:induction false} UnpinnedLoads(r: Reader, d: Dir, c: Config, text: string)
    requires r.validName(c.name) && r.parse(text, c.name) == Ok(c) && c.iface.Text(PinEndpointVia) == ""
    requires HopAt(r, d, c.name) ==> LoadPlain(r, d, c.name) != Store.Loaded(c)
    ensures Load(r, d[Target(c) := Written(c, text)], c.name) == Store.Loaded(c) <==> !HopAt(r, d, c.name)
  {
    PlainIsNotSealed(c.name, c.name);
  }

  lemma {:induction false} PinnedLoads(r: Reader, d: Dir, c: Config, text: string)
    requires r.validName(c.name) && r.parse(text, c.name) == Ok(c) && c.iface.Text(PinEndpointVia) != ""
    ensures Load(r, d[Target(c) := Written(c, text)], c.name) == Store.Loaded(c) <==>
      r.isHop(text) || SealedName(c.name) !in d || LoadSealed(r, d, c.name) == Store.Loaded(c)
  {
    PlainIsNotSealed(c.name, c.name);
  }
}
