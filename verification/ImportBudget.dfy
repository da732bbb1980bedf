/** Expanding uploaded credential files.  One budget is shared by all uploads of a request, and the entries
    of an archive are charged before they are looked at. */
module ImportBudget {
  import Sorting
  import opened Text
  import opened Wrappers

  newtype uint64 = x: int | 0 <= x < 0x1_0000_0000_0000_0000

  type Bytes = seq<bv8>

  const MAX_FILE_BYTES: int := 0x10_0000
  const MAX_ARCHIVE_BYTES: int := 0x80_0000
  const MAX_ENTRIES: int := 1000
  const MAX_EXPANDED_BYTES: uint64 := 0x200_0000

  datatype FileName = Uploaded(name: string) | Member(archive: string, name: string)

  /** The name as it is shown and compared. */
  function Shown(f: FileName): string {
    match f
    case Uploaded(name) => name
    case Member(archive, name) => archive + "/" + name
  }

  /** Why a file is listed without being importable; the messages are not modelled. */
  datatype Failure = NotExpanded | BadPriority

  datatype ImportFile = ImportFile(fileName: FileName, sortName: string, raw: Bytes, priority: int, err: Option<Failure>)

  /** An entry as the archive reader presents it: what it declares and what reading it yields. */
  datatype ZipEntry = ZipEntry(name: string, declared: uint64, isDir: bool, isRegular: bool,
                               canOpen: bool, content: Bytes, readsWell: bool, closesWell: bool)

  datatype TarEntry =
    | TarEntry(name: string, size: int, isDir: bool, isRegular: bool, content: Bytes, readsWell: bool)
    | Broken

  /** A multipart file with what decoding it would give. */
  datatype Upload = Upload(name: string, size: int, canOpen: bool, content: Bytes, readsWell: bool, closesWell: bool,
                           zip: Option<seq<ZipEntry>>, tar: Option<seq<TarEntry>>, gzipClosesWell: bool)

  /** A tar reader never yields more than an entry declares; a ZIP reader may. */
  predicate HonestTar(entries: seq<TarEntry>) {
    forall i :: 0 <= i < |entries| && entries[i].TarEntry? && entries[i].size >= 0 ==>
      |entries[i].content| <= entries[i].size
  }

  predicate Honest(u: Upload) {
    u.tar.Some? ==> HonestTar(u.tar.value)
  }

  /** Reading through a limit. */
  function Limited(content: Bytes, limit: int): (r: Bytes)
    requires 0 <= limit
    ensures |r| == if |content| < limit then |content| else limit
  {
    if |content| <= limit then content else content[..limit]
  }

  /** The bytes of the first `n` files. */
  function RawUpTo(items: seq<ImportFile>, n: nat): nat
    requires n <= |items|
  {
    if n == 0 then 0 else RawUpTo(items, n - 1) + |items[n - 1].raw|
  }

  function RawTotal(items: seq<ImportFile>): nat {
    RawUpTo(items, |items|)
  }

  /** Files whose contents were taken in; a failed upload is listed without any. */
  predicate Taken(f: ImportFile) {
    f.err != Some(NotExpanded)
  }

  function LoadedUpTo(items: seq<ImportFile>, n: nat): (k: nat)
    requires n <= |items|
    ensures k <= n
  {
    if n == 0 then 0 else LoadedUpTo(items, n - 1) + if Taken(items[n - 1]) then 1 else 0
  }

  function Loaded(items: seq<ImportFile>): nat {
    LoadedUpTo(items, |items|)
  }

  lemma {:induction false} FrontOfConcat(a: seq<ImportFile>, b: seq<ImportFile>, n: nat)
    requires n <= |a|
    ensures RawUpTo(a + b, n) == RawUpTo(a, n) && LoadedUpTo(a + b, n) == LoadedUpTo(a, n)
  {
    if n > 0 {
      FrontOfConcat(a, b, n - 1);
    }
  }

  lemma {:induction false} BackOfConcat(a: seq<ImportFile>, b: seq<ImportFile>, n: nat)
    requires n <= |b|
    ensures RawUpTo(a + b, |a| + n) == RawTotal(a) + RawUpTo(b, n)
    ensures LoadedUpTo(a + b, |a| + n) == Loaded(a) + LoadedUpTo(b, n)
  {
    if n > 0 {
      BackOfConcat(a, b, n - 1);
    } else {
      FrontOfConcat(a, b, |a|);
    }
  }

  lemma TotalsOfConcat(a: seq<ImportFile>, b: seq<ImportFile>)
    ensures RawTotal(a + b) == RawTotal(a) + RawTotal(b)
    ensures Loaded(a + b) == Loaded(a) + Loaded(b)
  {
    BackOfConcat(a, b, |b|);
  }

  lemma TotalsOfOne(x: ImportFile)
    ensures RawTotal([x]) == |x.raw| && Loaded([x]) == if Taken(x) then 1 else 0
  {
    assert RawUpTo([x], 1) == RawUpTo([x], 0) + |[x][0].raw|;
    assert LoadedUpTo([x], 1) == LoadedUpTo([x], 0) + if Taken([x][0]) then 1 else 0;
  }

  predicate EachSmall(items: seq<ImportFile>) {
    forall i :: 0 <= i < |items| ==> |items[i].raw| <= MAX_FILE_BYTES
  }

  /** strings.EqualFold(path.Ext(name), ".json") */
  predicate IsJson(name: string) {
    |name| >= 5 && Lower(name[|name| - 5..]) == ".json"
  }

  function Elements(name: string): (r: seq<string>)
    ensures r != []
  {
    if name == "" then [""]
    else
      var rest := Elements(name[1..]);
      if name[0] == '/' then [""] + rest else [[name[0]] + rest[0]] + rest[1..]
  }

  /** validateOAuthCredentialArchivePath: relative, already clean, and not leading upwards. */
  predicate SafePath(name: string) {
    '\\' !in name && forall e :: e in Elements(name) ==> e != "" && e != "." && e != ".."
  }

  /** The priority that the contents ask for; None when it is not an integer or the contents cannot be decoded. */
  type Parse = Bytes -> Option<int>

  function NewFile(fileName: FileName, sortName: string, raw: Bytes, parse: Parse): ImportFile {
    match parse(raw)
    case None => ImportFile(fileName, sortName, raw, 0, Some(BadPriority))
    case Some(priority) => ImportFile(fileName, sortName, raw, priority, None)
  }

  function FailedFile(fileName: string): ImportFile {
    ImportFile(Uploaded(fileName), fileName, [], 0, Some(NotExpanded))
  }

  /** The credential files in an archive: every JSON entry, with all it contains. */
  function FileOf(archive: string, name: string, isDir: bool, content: Bytes, parse: Parse): seq<ImportFile> {
    if isDir || !IsJson(name) then [] else [NewFile(Member(archive, name), name, content, parse)]
  }

  function ZipFile(archive: string, e: ZipEntry, parse: Parse): seq<ImportFile> {
    FileOf(archive, e.name, e.isDir, e.content, parse)
  }

  function TarFile(archive: string, e: TarEntry, parse: Parse): seq<ImportFile> {
    if e.Broken? then [] else FileOf(archive, e.name, e.isDir, e.content, parse)
  }

  /** The files of the first `n` entries. */
  function ZipFiles(archive: string, zip: seq<ZipEntry>, n: nat, parse: Parse): seq<ImportFile>
    requires n <= |zip|
  {
    if n == 0 then [] else ZipFiles(archive, zip, n - 1, parse) + ZipFile(archive, zip[n - 1], parse)
  }

  function TarFiles(archive: string, tar: seq<TarEntry>, n: nat, parse: Parse): seq<ImportFile>
    requires n <= |tar|
  {
    if n == 0 then [] else TarFiles(archive, tar, n - 1, parse) + TarFile(archive, tar[n - 1], parse)
  }

  /** The credential files in an upload. */
  function FilesOf(u: Upload, archive: Archive, parse: Parse): seq<ImportFile> {
    match archive
    case Zip => if u.zip.Some? then ZipFiles(u.name, u.zip.value, |u.zip.value|, parse) else []
    case TarGz => if u.tar.Some? then TarFiles(u.name, u.tar.value, |u.tar.value|, parse) else []
    case Plain => [NewFile(Uploaded(u.name), u.name, u.content, parse)]
  }

  // ----- what is charged, and when it is refused -----

  /** The two counters of the budget, as plain numbers. */
  datatype Account = Account(entries: int, expanded: int)

  predicate Solvent(a: Account) {
    0 <= a.entries <= MAX_ENTRIES && 0 <= a.expanded <= MAX_EXPANDED_BYTES as int
  }

  /** A charge for one entry of a declared size, and whether it is granted.  Running out of bytes uses up
      the rest of the budget. */
  function Charged(a: Account, size: int): (r: (Account, bool))
    requires 0 <= size && Solvent(a)
    ensures Solvent(r.0)
  {
    if a.entries == MAX_ENTRIES then (a, false)
    else if a.expanded + size > MAX_EXPANDED_BYTES as int then (Account(a.entries + 1, MAX_EXPANDED_BYTES as int), false)
    else (Account(a.entries + 1, a.expanded + size), true)
  }

  /** What is left to pay when the contents turn out larger than declared. */
  function Surcharged(a: Account, declared: int, actual: nat): (r: (Account, bool))
    requires 0 <= declared && Solvent(a)
    ensures Solvent(r.0)
  {
    if actual > MAX_FILE_BYTES || actual > declared + MAX_EXPANDED_BYTES as int - a.expanded then
      (a.(expanded := MAX_EXPANDED_BYTES as int), false)
    else if actual > declared then (a.(expanded := a.expanded + actual - declared), true)
    else (a, true)
  }

  predicate BadPlace(isRegular: bool, name: string) {
    !isRegular || !SafePath(name)
  }

  function ZipCharge(): (Account, ZipEntry) -> (Account, bool) {
    (a: Account, e: ZipEntry) =>
      if !Solvent(a) then (a, false)
      else
        var (b, granted) := Charged(a, e.declared as int);
        if !granted || e.isDir then (b, granted)
        else if BadPlace(e.isRegular, e.name) then (b, false)
        else if !IsJson(e.name) then (b, true)
        else if e.declared as int > MAX_FILE_BYTES || !e.canOpen || !e.readsWell || !e.closesWell then (b, false)
        else Surcharged(b, e.declared as int, |e.content|)
  }

  function TarCharge(): (Account, TarEntry) -> (Account, bool) {
    (a: Account, e: TarEntry) =>
      if !Solvent(a) || e.Broken? || !(0 <= e.size < 0x8000_0000_0000_0000) then (a, false)
      else
        var (b, granted) := Charged(a, e.size);
        if !granted || e.isDir then (b, granted)
        else if BadPlace(e.isRegular, e.name) then (b, false)
        else (b, !IsJson(e.name) || (e.size <= MAX_FILE_BYTES && e.readsWell))
  }

  /** The charges of the first `n` entries; the first refusal ends the archive. */
  function Charges<E>(charge: (Account, E) -> (Account, bool), a: Account, es: seq<E>, n: nat): (Account, bool)
    requires n <= |es|
  {
    if n == 0 then (a, true)
    else
      var (b, granted) := Charges(charge, a, es, n - 1);
      if granted then charge(b, es[n - 1]) else (b, false)
  }

  lemma {:induction false} RefusalIsFinal<E>(charge: (Account, E) -> (Account, bool), a: Account, es: seq<E>, i: nat, n: nat)
    requires i <= n <= |es| && !Charges(charge, a, es, i).1
    ensures Charges(charge, a, es, n) == Charges(charge, a, es, i)
  {
    if i < n {
      RefusalIsFinal(charge, a, es, i, n - 1);
    }
  }

  function AllCharges<E>(charge: (Account, E) -> (Account, bool), a: Account, es: seq<E>): (Account, bool) {
    Charges(charge, a, es, |es|)
  }

  /** The charge for a whole upload that could be read, and whether its files can be imported. */
  function ContentCharge(a: Account, u: Upload, archive: Archive): (Account, bool) {
    match archive
    case Zip => if u.zip.None? then (a, false) else AllCharges(ZipCharge(), a, u.zip.value)
    case TarGz =>
      if u.tar.None? then (a, false)
      else
        var (b, granted) := AllCharges(TarCharge(), a, u.tar.value);
        (b, granted && u.gzipClosesWell)
    case Plain => if Solvent(a) then Charged(a, |u.content|) else (a, false)
  }

  /** What readOAuthCredentialUpload accepts. */
  predicate Readable(file: Option<Upload>, maxBytes: int) {
    && file.Some? && 0 < file.value.size <= maxBytes && |file.value.content| <= maxBytes
    && file.value.canOpen && file.value.readsWell && file.value.closesWell
  }

  function SizeLimit(archive: Archive): int {
    if archive.Plain? then MAX_FILE_BYTES else MAX_ARCHIVE_BYTES
  }

  /** An upload that cannot be read costs nothing; an archive without any JSON file is refused all the same. */
  function UploadCharge(a: Account, file: Option<Upload>, archive: Archive, parse: Parse): (Account, bool) {
    if !Readable(file, SizeLimit(archive)) then (a, false)
    else
      var (b, granted) := ContentCharge(a, file.value, archive);
      (b, granted && FilesOf(file.value, archive, parse) != [])
  }

  /** The account after the first `n` uploads of a request, and which of them were refused. */
  function Spending(files: seq<Option<Upload>>, n: nat, parse: Parse): (r: (Account, seq<bool>))
    requires n <= |files|
    ensures |r.1| == n
  {
    if n == 0 then (Account(0, 0), [])
    else
      var (a, refused) := Spending(files, n - 1, parse);
      var (b, granted) := UploadCharge(a, files[n - 1], ArchiveOf(files[n - 1]), parse);
      (b, refused + [!granted])
  }

  function Refusals(files: seq<Option<Upload>>, parse: Parse): (refused: seq<bool>)
    ensures |refused| == |files|
  {
    Spending(files, |files|, parse).1
  }

  class Budget {
    var entries: int
    var expandedSize: uint64

    constructor ()
      ensures Valid() && entries == 0 && expandedSize == 0
    {
      entries, expandedSize := 0, 0;
    }

    predicate Valid()
      reads this
    {
      0 <= entries <= MAX_ENTRIES && expandedSize <= MAX_EXPANDED_BYTES
    }

    ghost function Now(): (a: Account)
      reads this
      ensures Valid() ==> Solvent(a)
    {
      Account(entries, expandedSize as int)
    }

    /** Both counters only grow, within their bounds, and what was taken in has been paid for. */
    twostate predicate PaidFor(bytes: int, files: int)
      reads this
    {
      Valid() && bytes <= expandedSize as int - old(expandedSize) as int && files <= entries - old(entries)
    }

    /** reserve */
    method Reserve(size: uint64) returns (ok: bool)
      requires Valid()
      modifies this
      ensures Valid() && (Now(), ok) == Charged(old(Now()), size as int)
    {
      if entries >= MAX_ENTRIES {
        return false;
      }
      entries := entries + 1;
      var remaining := MAX_EXPANDED_BYTES - expandedSize;
      if size > remaining {
        expandedSize := MAX_EXPANDED_BYTES;
        return false;
      }
      expandedSize := expandedSize + size;
      return true;
    }

    /** readOAuthCredentialZIPEntry: whatever the entry really yields is paid for, also beyond what it
        declares. */
    method ReadZipEntry(e: ZipEntry) returns (raw: Option<Bytes>)
      requires Valid() && e.declared as int <= MAX_FILE_BYTES && e.declared <= expandedSize
      modifies `expandedSize
      ensures (Now(), raw.Some?) == if !e.canOpen || !e.readsWell || !e.closesWell then (old(Now()), false)
                                    else Surcharged(old(Now()), e.declared as int, |e.content|)
      ensures Valid() && old(expandedSize) <= expandedSize
      ensures raw.Some? ==> |raw.value| <= MAX_FILE_BYTES
      ensures raw.Some? ==> |raw.value| <= expandedSize as int - old(expandedSize) as int + e.declared as int
      ensures raw.Some? ==> raw.value == e.content
    {
      if !e.canOpen {
        return None;
      }
      var remaining := MAX_EXPANDED_BYTES - expandedSize;
      var maxActualSize := e.declared + remaining;
      if maxActualSize as int > MAX_FILE_BYTES {
        maxActualSize := MAX_FILE_BYTES as uint64;
      }
      var read := Limited(e.content, maxActualSize as int + 1);
      if !e.readsWell || !e.closesWell {
        return None;
      }
      if |read| > maxActualSize as int || |read| > MAX_FILE_BYTES {
        expandedSize := MAX_EXPANDED_BYTES;
        return None;
      }
      if |read| > e.declared as int {
        expandedSize := expandedSize + (|read| as uint64 - e.declared);
      }
      return Some(read);
    }

    /** One ZIP entry: nothing when the archive has to be refused, else the file it adds, if any. */
    method TakeZipEntry(archive: string, e: ZipEntry, parse: Parse) returns (r: Option<seq<ImportFile>>)
      requires Valid()
      modifies this
      ensures PaidFor(if r.Some? then RawTotal(r.value) else 0, if r.Some? then |r.value| else 0)
      ensures r.Some? ==> EachSmall(r.value) && r.value == ZipFile(archive, e, parse)
      ensures (Now(), r.Some?) == ZipCharge()(old(Now()), e)
    {
      var ok := Reserve(e.declared);
      if !ok {
        return None;
      }
      if e.isDir {
        return Some([]);
      }
      if !e.isRegular || !SafePath(e.name) {
        return None;
      }
      if !IsJson(e.name) {
        return Some([]);
      }
      if e.declared as int > MAX_FILE_BYTES {
        return None;
      }
      var raw := ReadZipEntry(e);
      if raw.None? {
        return None;
      }
      var item := NewFile(Member(archive, e.name), e.name, raw.value, parse);
      TotalsOfOne(item);
      return Some([item]);
    }

    /** expandOAuthCredentialZIP, after the archive directory has been read. */
    method ExpandZip(archive: string, zip: seq<ZipEntry>, parse: Parse) returns (r: Option<seq<ImportFile>>)
      requires Valid()
      modifies this
      ensures PaidFor(if r.Some? then RawTotal(r.value) else 0, if r.Some? then |r.value| else 0)
      ensures r.Some? ==> EachSmall(r.value) && r.value == ZipFiles(archive, zip, |zip|, parse)
      ensures (Now(), r.Some?) == AllCharges(ZipCharge(), old(Now()), zip)
    {
      hide ZipFile, ZipCharge;
      var items: seq<ImportFile> := [];
      for i := 0 to |zip|
        invariant PaidFor(RawTotal(items), |items|) && EachSmall(items)
        invariant items == ZipFiles(archive, zip, i, parse)
        invariant (Now(), true) == Charges(ZipCharge(), old(Now()), zip, i)
      {
        var more := TakeZipEntry(archive, zip[i], parse);
        if more.None? {
          RefusalIsFinal(ZipCharge(), old(Now()), zip, i + 1, |zip|);
          return None;
        }
        TotalsOfConcat(items, more.value);
        items := items + more.value;
      }
      return Some(items);
    }

    method TakeTarEntry(archive: string, e: TarEntry, parse: Parse) returns (r: Option<seq<ImportFile>>)
      requires Valid() && HonestTar([e])
      modifies this
      ensures PaidFor(if r.Some? then RawTotal(r.value) else 0, if r.Some? then |r.value| else 0)
      ensures r.Some? ==> EachSmall(r.value) && r.value == TarFile(archive, e, parse)
      ensures (Now(), r.Some?) == TarCharge()(old(Now()), e)
    {
      if e.Broken? || e.size < 0 || e.size >= 0x8000_0000_0000_0000 {
        return None;
      }
      assert [e][0] == e;
      var ok := Reserve(e.size as uint64);
      if !ok {
        return None;
      }
      if e.isDir {
        return Some([]);
      }
      if !e.isRegular || !SafePath(e.name) {
        return None;
      }
      if !IsJson(e.name) {
        return Some([]);
      }
      if e.size > MAX_FILE_BYTES || !e.readsWell {
        return None;
      }
      var raw := Limited(e.content, MAX_FILE_BYTES + 1);
      if |raw| > MAX_FILE_BYTES {
        return None;
      }
      var item := NewFile(Member(archive, e.name), e.name, raw, parse);
      TotalsOfOne(item);
      return Some([item]);
    }

    /** readOAuthCredentialTar; the end of the sequence is the end of the archive. */
    method ReadTar(archive: string, tar: seq<TarEntry>, parse: Parse) returns (r: Option<seq<ImportFile>>)
      requires Valid() && HonestTar(tar)
      modifies this
      ensures PaidFor(if r.Some? then RawTotal(r.value) else 0, if r.Some? then |r.value| else 0)
      ensures r.Some? ==> EachSmall(r.value) && r.value == TarFiles(archive, tar, |tar|, parse)
      ensures (Now(), r.Some?) == AllCharges(TarCharge(), old(Now()), tar)
    {
      hide TarFile, TarCharge;
      var items: seq<ImportFile> := [];
      for i := 0 to |tar|
        invariant PaidFor(RawTotal(items), |items|) && EachSmall(items)
        invariant items == TarFiles(archive, tar, i, parse)
        invariant (Now(), true) == Charges(TarCharge(), old(Now()), tar, i)
      {
        var more := TakeTarEntry(archive, tar[i], parse);
        if more.None? {
          RefusalIsFinal(TarCharge(), old(Now()), tar, i + 1, |tar|);
          return None;
        }
        TotalsOfConcat(items, more.value);
        items := items + more.value;
      }
      return Some(items);
    }

    method Expand(u: Upload, archive: Archive, raw: Bytes, parse: Parse) returns (r: Option<seq<ImportFile>>)
      requires Valid() && Honest(u) && raw == u.content && (archive.Plain? ==> |raw| <= MAX_FILE_BYTES)
      modifies this
      ensures PaidFor(if r.Some? then RawTotal(r.value) else 0, if r.Some? then |r.value| else 0)
      ensures r.Some? ==> EachSmall(r.value) && r.value == FilesOf(u, archive, parse)
      ensures (Now(), r.Some?) == ContentCharge(old(Now()), u, archive)
    {
      match archive
      case Zip =>
        if u.zip.None? {
          return None;
        }
        r := ExpandZip(u.name, u.zip.value, parse);
      case TarGz =>
        if u.tar.None? {
          return None;
        }
        r := ReadTar(u.name, u.tar.value, parse);
        if !u.gzipClosesWell {
          r := None;
        }
      case Plain =>
        r := ReservePlain(u.name, raw, parse);
    }

    method ReservePlain(fileName: string, raw: Bytes, parse: Parse) returns (r: Option<seq<ImportFile>>)
      requires Valid() && |raw| <= MAX_FILE_BYTES
      modifies this
      ensures PaidFor(if r.Some? then RawTotal(r.value) else 0, if r.Some? then |r.value| else 0)
      ensures r.Some? ==> EachSmall(r.value) && r.value == [NewFile(Uploaded(fileName), fileName, raw, parse)]
      ensures (Now(), r.Some?) == Charged(old(Now()), |raw|)
    {
      var ok := Reserve(|raw| as uint64);
      if !ok {
        return None;
      }
      var item := NewFile(Uploaded(fileName), fileName, raw, parse);
      TotalsOfOne(item);
      return Some([item]);
    }

    /** One upload of expandOAuthCredentialUploads. */
    method ExpandUpload(file: Option<Upload>, archive: Archive, parse: Parse)
      returns (items: seq<ImportFile>)
      requires Valid() && (file.Some? ==> Honest(file.value))
      modifies this
      ensures PaidFor(RawTotal(items), Loaded(items)) && EachSmall(items)
      ensures var (after, granted) := UploadCharge(old(Now()), file, archive, parse);
              Now() == after && items == Contribution(file, archive, !granted, parse)
      ensures |items| > 0
    {
      items := [FailedFile(UploadName(file))];
      TotalsOfOne(items[0]);
      var raw := ReadUpload(file, SizeLimit(archive));
      if raw.None? {
        return;
      }
      var expanded := Expand(file.value, archive, raw.value, parse);
      if expanded.None? || expanded.value == [] {
        return;
      }
      items := expanded.value;
    }
  }

  /** What an upload contributes: its credential files, all of them and complete, or a single failure. */
  function Contribution(file: Option<Upload>, archive: Archive, refused: bool, parse: Parse): seq<ImportFile> {
    if refused || file.None? then [FailedFile(UploadName(file))] else FilesOf(file.value, archive, parse)
  }

  function UploadName(file: Option<Upload>): string {
    if file.Some? then file.value.name else ""
  }

  datatype Archive = Zip | TarGz | Plain

  predicate HasSuffix(s: string, suffix: string) {
    |s| >= |suffix| && s[|s| - |suffix|..] == suffix
  }

  /** oauthCredentialArchiveType */
  function ArchiveType(fileName: string): Archive {
    var lower := Lower(Trim(fileName));
    if HasSuffix(lower, ".zip") then Zip
    else if HasSuffix(lower, ".tar.gz") || HasSuffix(lower, ".tgz") then TarGz
    else Plain
  }

  /** readOAuthCredentialUpload */
  method ReadUpload(file: Option<Upload>, maxBytes: int) returns (raw: Option<Bytes>)
    requires 0 < maxBytes
    ensures raw.Some? ==> file.Some? && raw.value == file.value.content
    ensures raw.Some? <==> Readable(file, maxBytes)
  {
    if file.None? || file.value.size <= 0 || file.value.size > maxBytes || !file.value.canOpen {
      return None;
    }
    var read := Limited(file.value.content, maxBytes + 1);
    if !file.value.readsWell || |read| > maxBytes || !file.value.closesWell {
      return None;
    }
    return Some(read);
  }

  // ----- the order of the import -----

  /** sortOAuthCredentialImportFiles: the comparison below zero. */
  predicate Before(a: ImportFile, b: ImportFile) {
    if a.priority != b.priority then a.priority < b.priority
    else if Lower(a.sortName) != Lower(b.sortName) then Less(Lower(a.sortName), Lower(b.sortName))
    else if a.sortName != b.sortName then Less(a.sortName, b.sortName)
    else Less(Shown(a.fileName), Shown(b.fileName))
  }

  lemma BeforeIsStrict(a: ImportFile, b: ImportFile, c: ImportFile)
    ensures !Before(a, a)
    ensures Before(a, b) && Before(b, c) ==> Before(a, c)
    ensures Before(a, c) ==> Before(a, b) || Before(b, c)
    ensures !Before(a, b) && !Before(b, a) <==>
              a.priority == b.priority && a.sortName == b.sortName && Shown(a.fileName) == Shown(b.fileName)
  {
    LessOrders(Lower(a.sortName), Lower(b.sortName), Lower(c.sortName));
    LessOrders(a.sortName, b.sortName, c.sortName);
    LessOrders(Shown(a.fileName), Shown(b.fileName), Shown(c.fileName));
  }

  lemma BeforeOrders()
    ensures Sorting.StrictWeakOrder(Before)
  {
    forall a, b, c
      ensures !Before(a, a) && (Before(a, b) && Before(b, c) ==> Before(a, c)) && (Before(a, c) ==> Before(a, b) || Before(b, c))
    {
      BeforeIsStrict(a, b, c);
    }
  }

  lemma {:induction false} SortKeepsTotals(items: seq<ImportFile>)
    ensures RawTotal(Sorting.Sort(items, Before)) == RawTotal(items)
    ensures Loaded(Sorting.Sort(items, Before)) == Loaded(items)
  {
    if items != [] {
      var rest := Sorting.Sort(items[1..], Before);
      SortKeepsTotals(items[1..]);
      InsertAddsOne(items[0], rest);
      assert items == [items[0]] + items[1..];
      TotalsOfOne(items[0]);
      TotalsOfConcat([items[0]], items[1..]);
    }
  }

  lemma {:induction false} InsertAddsOne(x: ImportFile, s: seq<ImportFile>)
    ensures RawTotal(Sorting.Insert(x, s, Before)) == |x.raw| + RawTotal(s)
    ensures Loaded(Sorting.Insert(x, s, Before)) == Loaded([x]) + Loaded(s)
  {
    TotalsOfOne(x);
    if s == [] || !Before(s[0], x) {
      TotalsOfConcat([x], s);
    } else {
      InsertAddsOne(x, s[1..]);
      var rest := Sorting.Insert(x, s[1..], Before);
      TotalsOfConcat([s[0]], rest);
      TotalsOfConcat([s[0]], s[1..]);
      assert s == [s[0]] + s[1..];
    }
  }

  /** A missing upload has an empty name and so is no archive. */
  function ArchiveOf(file: Option<Upload>): Archive {
    if file.Some? then ArchiveType(file.value.name) else Plain
  }

  /** The contribution of every upload, if it is refused or if it is not. */
  function AllContributions(files: seq<Option<Upload>>, refused: bool, parse: Parse): (r: seq<seq<ImportFile>>)
    ensures |r| == |files|
    ensures forall i :: 0 <= i < |files| ==> r[i] == Contribution(files[i], ArchiveOf(files[i]), refused, parse)
  {
    seq(|files|, i requires 0 <= i < |files| => Contribution(files[i], ArchiveOf(files[i]), refused, parse))
  }

  /** The first `n` contributions one after the other; `refused` says which uploads failed. */
  function Chosen(wholes: seq<seq<ImportFile>>, failures: seq<seq<ImportFile>>, refused: seq<bool>, n: nat): seq<ImportFile>
    requires n <= |refused| <= |wholes| == |failures|
  {
    if n == 0 then []
    else Chosen(wholes, failures, refused, n - 1) + if refused[n - 1] then failures[n - 1] else wholes[n - 1]
  }

  lemma {:induction false} ChosenFront(wholes: seq<seq<ImportFile>>, failures: seq<seq<ImportFile>>,
                                       refused: seq<bool>, more: bool, n: nat)
    requires n <= |refused| < |wholes| == |failures|
    ensures Chosen(wholes, failures, refused + [more], n) == Chosen(wholes, failures, refused, n)
  {
    if n > 0 {
      ChosenFront(wholes, failures, refused, more, n - 1);
    }
  }

  function Contributions(files: seq<Option<Upload>>, refused: seq<bool>, parse: Parse): seq<ImportFile>
    requires |refused| == |files|
  {
    Chosen(AllContributions(files, false, parse), AllContributions(files, true, parse), refused, |files|)
  }

  predicate AllHonest(files: seq<Option<Upload>>) {
    forall i :: 0 <= i < |files| && files[i].Some? ==> Honest(files[i].value)
  }

  /** expandOAuthCredentialUploads.  Through any sequence of plain, ZIP and tar uploads the accepted files
      stay within both limits, nothing is lost, and everything comes out sorted.  Exactly the uploads that
      `Refusals` names are listed as failures. */
  method ExpandUploads(files: seq<Option<Upload>>, parse: Parse) returns (items: seq<ImportFile>)
    requires AllHonest(files)
    ensures RawTotal(items) <= 33_554_432 && Loaded(items) <= 1000
    ensures forall f :: f in items ==> |f.raw| <= 1_048_576
    ensures |items| >= |files|
    ensures multiset(items) == multiset(Contributions(files, Refusals(files, parse), parse))
    ensures Sorting.SortedBy(items, Before)
  {
    var unsorted := ExpandAll(files, parse);
    items := Sorting.Sort(unsorted, Before);
    SortedWell(unsorted);
  }

  method ExpandAll(files: seq<Option<Upload>>, parse: Parse) returns (items: seq<ImportFile>)
    requires AllHonest(files)
    ensures RawTotal(items) <= MAX_EXPANDED_BYTES as int && Loaded(items) <= MAX_ENTRIES && EachSmall(items)
    ensures |items| >= |files| && items == Contributions(files, Refusals(files, parse), parse)
  {
    hide UploadCharge, Contribution, RawTotal, Loaded, EachSmall, Chosen, ArchiveOf, Honest;
    var budget := new Budget();
    ghost var wholes, failures := AllContributions(files, false, parse), AllContributions(files, true, parse);
    ghost var refused := [];
    items := [];
    NothingYet(wholes, failures);
    for i := 0 to |files|
      invariant |refused| == i && Gathered(items, wholes, failures, refused)
      invariant budget.Valid() && RawTotal(items) <= budget.expandedSize as int && Loaded(items) <= budget.entries
      invariant Spending(files, i, parse) == (budget.Now(), refused)
    {
      ghost var failed := !UploadCharge(budget.Now(), files[i], ArchiveOf(files[i]), parse).1;
      var more := budget.ExpandUpload(files[i], ArchiveOf(files[i]), parse);
      GatherMore(items, wholes, failures, refused, more, failed);
      items := items + more;
      refused := refused + [failed];
    }
  }

  ghost predicate Gathered(items: seq<ImportFile>, wholes: seq<seq<ImportFile>>, failures: seq<seq<ImportFile>>, refused: seq<bool>) {
    && |refused| <= |wholes| == |failures| && items == Chosen(wholes, failures, refused, |refused|)
    && EachSmall(items) && |items| >= |refused|
  }

  lemma NothingYet(wholes: seq<seq<ImportFile>>, failures: seq<seq<ImportFile>>)
    requires |wholes| == |failures|
    ensures Gathered([], wholes, failures, []) && RawTotal([]) == 0 && Loaded([]) == 0
  {
  }

  lemma GatherMore(items: seq<ImportFile>, wholes: seq<seq<ImportFile>>, failures: seq<seq<ImportFile>>, refused: seq<bool>,
                   more: seq<ImportFile>, failed: bool)
    requires Gathered(items, wholes, failures, refused) && |refused| < |wholes|
    requires EachSmall(more) && |more| > 0 && more == if failed then failures[|refused|] else wholes[|refused|]
    ensures Gathered(items + more, wholes, failures, refused + [failed])
    ensures RawTotal(items + more) == RawTotal(items) + RawTotal(more)
    ensures Loaded(items + more) == Loaded(items) + Loaded(more)
  {
    TotalsOfConcat(items, more);
    ChosenFront(wholes, failures, refused, failed, |refused|);
  }

  lemma SortedWell(unsorted: seq<ImportFile>)
    requires EachSmall(unsorted)
    ensures var items := Sorting.Sort(unsorted, Before);
            && Sorting.SortedBy(items, Before) && multiset(items) == multiset(unsorted)
            && RawTotal(items) == RawTotal(unsorted) && Loaded(items) == Loaded(unsorted)
            && forall f :: f in items ==> |f.raw| <= MAX_FILE_BYTES
  {
    BeforeOrders();
    Sorting.SortSorted(unsorted, Before);
    Sorting.SortPermutes(unsorted, Before);
    SortKeepsTotals(unsorted);
  }
}
