// The directory of stored tunnels: encrypted files, plain files of chain hops,
// and the migration of plain files into encrypted ones.
module Store {
  import opened Text
  import opened Config
  import opened Names
  import opened Parser
  import opened HopScan

  // File contents. Sealed stands for what dpapi.Encrypt makes of a text for a
  // tunnel name; only the same name opens it.
  datatype Content = Plain(text: string) | Sealed(owner: string, text: string)

  datatype File = File(content: Content, regular: bool, readable: bool)

  type Dir = map<string, File>

  const PLAIN_SUFFIX := ".conf"
  const SEALED_SUFFIX := ".conf.dpapi"

  function PlainName(name: string): string { name + PLAIN_SUFFIX }
  function SealedName(name: string): string { name + SEALED_SUFFIX }

  lemma {:induction false} PlainNameInjective(m: string, n: string)
    ensures PlainName(m) == PlainName(n) <==> m == n
  {
    var a, b := PlainName(m), PlainName(n);
    if a == b { assert m == a[..|a| - 5] && n == b[..|b| - 5]; }
  }

  lemma {:induction false} SealedNameInjective(m: string, n: string)
    ensures SealedName(m) == SealedName(n) <==> m == n
  {
    var a, b := SealedName(m), SealedName(n);
    if a == b { assert m == a[..|a| - 11] && n == b[..|b| - 11]; }
  }

  lemma {:induction false} PlainIsNotSealed(m: string, n: string)
    ensures PlainName(m) != SealedName(n)
  {
    var a, b := PlainName(m), SealedName(n);
    assert a[|a| - 1] == 'f' && b[|b| - 1] == 'i';
  }

  // ----- reading -----

  // How texts are read: the parser, the hop scan and the rule for names. The
  // store is the same for any reader.
  datatype Reader = Reader(
    parse: (string, string) -> Result<Config>,
    isHop: string -> bool,
    validName: string -> bool)

  const WG_QUICK := Reader(Parse, IsHopText, ValidName)

  datatype LoadError = NoFile | NotReadable | WrongKey | BadName | BadText(error: ParseError)
  datatype LoadResult = Loaded(config: Config) | Failed(error: LoadError)

  function OfParse(r: Result<Config>): LoadResult {
    match r
    case Ok(c) => Loaded(c)
    case Err(e) => Failed(BadText(e))
  }

  // fileIsChainHop, asked of the plain file of a name
  predicate HopAt(r: Reader, d: Dir, name: string) {
    var f := PlainName(name);
    f in d && d[f].regular && d[f].content.Plain? && r.isHop(d[f].content.text)
  }

  // LoadFromPath on the plain file of a name
  function LoadPlain(r: Reader, d: Dir, name: string): LoadResult {
    var f := PlainName(name);
    if !r.validName(name) then Failed(LoadError.BadName)
    else if f !in d then Failed(NoFile)
    else if !d[f].regular || !d[f].content.Plain? then Failed(NotReadable)
    else OfParse(r.parse(d[f].content.text, name))
  }

  // LoadFromPath on the encrypted file of a name
  function LoadSealed(r: Reader, d: Dir, name: string): LoadResult {
    var f := SealedName(name);
    if !r.validName(name) then Failed(LoadError.BadName)
    else if f !in d then Failed(NoFile)
    else if !d[f].regular then Failed(NotReadable)
    else if !d[f].content.Sealed? || d[f].content.owner != name then Failed(WrongKey)
    else OfParse(r.parse(d[f].content.text, name))
  }

  // LoadFromName
  function Load(r: Reader, d: Dir, name: string): LoadResult {
    if HopAt(r, d, name) then LoadPlain(r, d, name)
    else if SealedName(name) !in d && PlainName(name) in d then LoadPlain(r, d, name)
    else LoadSealed(r, d, name)
  }

  // What is loaded for a name depends on its own two files only.
  lemma {:induction false} LoadDepends(r: Reader, d: Dir, d': Dir, name: string)
    requires PlainName(name) in d <==> PlainName(name) in d'
    requires PlainName(name) in d ==> d[PlainName(name)] == d'[PlainName(name)]
    requires SealedName(name) in d <==> SealedName(name) in d'
    requires SealedName(name) in d ==> d[SealedName(name)] == d'[SealedName(name)]
    ensures Load(r, d, name) == Load(r, d', name)
    ensures HopAt(r, d, name) == HopAt(r, d', name)
    ensures Listed(r, d, name) == Listed(r, d', name)
  {
  }

  // What is loaded was read from the plain file of the name when that is a hop's
  // or there is no sealed one, and otherwise from a file sealed for this name.
  lemma {:induction false} LoadedFrom(r: Reader, d: Dir, name: string, c: Config)
    ensures Load(r, d, name) == Loaded(c) <==>
      && r.validName(name)
      && if HopAt(r, d, name) || (SealedName(name) !in d && PlainName(name) in d) then
           d[PlainName(name)].regular && d[PlainName(name)].content.Plain? && r.parse(d[PlainName(name)].content.text, name) == Ok(c)
         else
           && SealedName(name) in d && d[SealedName(name)].regular
           && d[SealedName(name)].content.Sealed? && d[SealedName(name)].content.owner == name
           && r.parse(d[SealedName(name)].content.text, name) == Ok(c)
  {
    PlainIsNotSealed(name, name);
  }

  // ----- listing -----

  predicate ListsPlain(r: Reader, d: Dir, name: string) {
    var f := PlainName(name);
    name != "" && f in d && d[f].regular && d[f].readable && r.validName(name) && SealedName(name) !in d
  }

  predicate ListsSealed(r: Reader, d: Dir, name: string) {
    var f := SealedName(name);
    name != "" && f in d && d[f].regular && d[f].readable && r.validName(name)
  }

  predicate Listed(r: Reader, d: Dir, name: string) {
    ListsPlain(r, d, name) || ListsSealed(r, d, name)
  }

  predicate Usable(d: Dir, f: string) {
    f in d && d[f].regular && d[f].readable
  }

  // A name is listed when it is valid and its sealed file is usable, or there is
  // none and its plain file is; then loading it cannot fail for want of a file
  // or of a valid name.
  lemma {:induction false} ListedWhen(r: Reader, d: Dir, name: string)
    ensures Listed(r, d, name) <==>
      && name != "" && r.validName(name)
      && (Usable(d, SealedName(name)) || (SealedName(name) !in d && Usable(d, PlainName(name))))
    ensures Listed(r, d, name) ==> Load(r, d, name) != Failed(NoFile) && Load(r, d, name) != Failed(LoadError.BadName)
  {
    PlainIsNotSealed(name, name);
  }

  // The name a directory entry stands for, or None: the body of the listing loop.
  function EntryName(r: Reader, d: Dir, f: string): (e: Option<string>)
    requires f in d
    ensures e.Some? ==> (f == PlainName(e.value) && ListsPlain(r, d, e.value)) || (f == SealedName(e.value) && ListsSealed(r, d, e.value))
  {
    if |f| > 5 && HasSuffix(f, PLAIN_SUFFIX) && ListsPlain(r, d, f[..|f| - 5]) then
      assert f == f[..|f| - 5] + PLAIN_SUFFIX;
      Some(f[..|f| - 5])
    else if |f| > 11 && HasSuffix(f, SEALED_SUFFIX) && ListsSealed(r, d, f[..|f| - 11]) then
      assert f == f[..|f| - 11] + SEALED_SUFFIX;
      Some(f[..|f| - 11])
    else None
  }

  lemma {:induction false} EntryOfPlain(r: Reader, d: Dir, name: string)
    requires ListsPlain(r, d, name)
    ensures EntryName(r, d, PlainName(name)) == Some(name)
  {
    var f := PlainName(name);
    assert f[..|f| - 5] == name && f[|f| - 5..] == PLAIN_SUFFIX;
  }

  lemma {:induction false} EntryOfSealed(r: Reader, d: Dir, name: string)
    requires ListsSealed(r, d, name)
    ensures EntryName(r, d, SealedName(name)) == Some(name)
  {
    var f := SealedName(name);
    assert f[..|f| - 11] == name && f[|f| - 11..] == SEALED_SUFFIX;
    PlainSuffixLast(f);
  }

  lemma {:induction false} PlainSuffixLast(f: string)
    ensures HasSuffix(f, PLAIN_SUFFIX) ==> f[|f| - 1] == 'f'
  {
    if HasSuffix(f, PLAIN_SUFFIX) { assert f[|f| - 1] == f[|f| - 5..][4]; }
  }

  // Two entries never stand for one name.
  lemma {:induction false} EntriesDiffer(r: Reader, d: Dir, f: string, g: string)
    requires f in d && g in d && f != g && EntryName(r, d, f).Some? && EntryName(r, d, g).Some?
    ensures EntryName(r, d, f).value != EntryName(r, d, g).value
  {
  }

  // An order in which the directory is read.
  ghost predicate Reading(files: seq<string>, d: Dir) {
    (forall f :: f in files <==> f in d) && (forall i, j :: 0 <= i < j < |files| ==> files[i] != files[j])
  }

  // The names the listing loop collects.
  function NamesIn(r: Reader, d: Dir, files: seq<string>): seq<string>
    requires forall i :: 0 <= i < |files| ==> files[i] in d
  {
    if files == [] then []
    else
      var n := |files| - 1;
      var entry := EntryName(r, d, files[n]);
      NamesIn(r, d, files[..n]) + (if entry.Some? then [entry.value] else [])
  }

  lemma {:induction false} NamesInFrom(r: Reader, d: Dir, files: seq<string>, name: string) returns (f: string)
    requires forall i :: 0 <= i < |files| ==> files[i] in d
    requires name in NamesIn(r, d, files)
    ensures f in files && f in d && EntryName(r, d, f) == Some(name)
  {
    var n := |files| - 1;
    if EntryName(r, d, files[n]) == Some(name) { f := files[n]; } else { f := NamesInFrom(r, d, files[..n], name); }
  }

  lemma {:induction false} NamesInAll(r: Reader, d: Dir, files: seq<string>, f: string)
    requires forall i :: 0 <= i < |files| ==> files[i] in d
    requires f in files && EntryName(r, d, f).Some?
    ensures EntryName(r, d, f).value in NamesIn(r, d, files)
  {
    var n := |files| - 1;
    if files[n] != f {
      assert files == files[..n] + [files[n]];
      NamesInAll(r, d, files[..n], f);
    }
  }

  predicate Distinct(s: seq<string>) {
    forall i, j :: 0 <= i < j < |s| ==> s[i] != s[j]
  }

  lemma {:induction false} NamesInDistinct(r: Reader, d: Dir, files: seq<string>)
    requires forall i :: 0 <= i < |files| ==> files[i] in d
    requires Distinct(files)
    ensures Distinct(NamesIn(r, d, files))
  {
    if files != [] {
      var n := |files| - 1;
      NamesInDistinct(r, d, files[..n]);
      var entry, before := EntryName(r, d, files[n]), NamesIn(r, d, files[..n]);
      if entry.Some? && entry.value in before {
        var f := NamesInFrom(r, d, files[..n], entry.value);
        EntriesDiffer(r, d, f, files[n]);
      }
    }
  }

  // Every listed name is collected, once, and no other.
  lemma {:induction false} NamesInCorrect(r: Reader, d: Dir, files: seq<string>)
    requires Reading(files, d)
    ensures forall n :: n in NamesIn(r, d, files) <==> Listed(r, d, n)
    ensures Distinct(NamesIn(r, d, files))
  {
    NamesInDistinct(r, d, files);
    forall n ensures n in NamesIn(r, d, files) <==> Listed(r, d, n) {
      if n in NamesIn(r, d, files) {
        var f := NamesInFrom(r, d, files, n);
      }
      if ListsPlain(r, d, n) {
        EntryOfPlain(r, d, n);
        NamesInAll(r, d, files, PlainName(n));
      } else if ListsSealed(r, d, n) {
        EntryOfSealed(r, d, n);
        NamesInAll(r, d, files, SealedName(n));
      }
    }
  }

  // ListConfigNames, for any order in which the directory is read.
  method ListConfigNames(r: Reader, d: Dir, files: seq<string>) returns (names: seq<string>)
    requires Reading(files, d)
    ensures forall n :: n in names <==> Listed(r, d, n)
    ensures Distinct(names)
  {
    var configs := new string[|files|];
    var i := 0;
    for k := 0 to |files|
      invariant 0 <= i <= k
      invariant forall x :: 0 <= x < |files| ==> files[x] in d
      invariant configs[..i] == NamesIn(r, d, files[..k])
    {
      assert files[..k + 1][..k] == files[..k];
      var entry := EntryName(r, d, files[k]);
      if entry.Some? {
        configs[i] := entry.value;
        i := i + 1;
      }
    }
    names := configs[..i];
    assert files[..|files|] == files;
    NamesInCorrect(r, d, files);
  }
}
