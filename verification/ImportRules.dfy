/** The rules of the import in plain numbers and fields: which entries and uploads are taken in, what they become, and in
    which order they are imported. */
module ImportRules {
  import opened ImportBudget
  import opened Text
  import opened Wrappers
  import Sorting

  // ----- names -----

  /** An archive is known by the end of its trimmed name, whatever the case. */
  lemma ArchiveBySuffix(fileName: string)
    ensures var lower := Lower(Trim(fileName));
            var n := |lower|;
            && (ArchiveType(fileName).Zip? <==> n >= 4 && lower[n - 4..] == ".zip")
            && (ArchiveType(fileName).TarGz? <==>
                  (n >= 7 && lower[n - 7..] == ".tar.gz") || (n >= 4 && lower[n - 4..] == ".tgz"))
  {
    hide Lower, Trim;
    var lower := Lower(Trim(fileName));
    if |lower| >= 4 {
      assert lower[|lower| - 4..] == ".zip" ==> lower[|lower| - 1] == 'p';
      assert lower[|lower| - 4..] == ".tgz" ==> lower[|lower| - 1] == 'z';
    }
    if |lower| >= 7 {
      assert lower[|lower| - 7..] == ".tar.gz" ==> lower[|lower| - 1] == 'z';
    }
  }

  /** A credential file ends in ".json", whatever the case. */
  lemma JsonBySuffix(name: string)
    ensures IsJson(name) <==>
              && |name| >= 5 && var e := name[|name| - 5..];
                 e[0] == '.' && e[1] in {'j', 'J'} && e[2] in {'s', 'S'} && e[3] in {'o', 'O'} && e[4] in {'n', 'N'}
  {
    if |name| >= 5 {
      var e := name[|name| - 5..];
      forall i | 0 <= i < 5
        ensures Lower(e)[i] as int == if 'A' <= e[i] <= 'Z' then e[i] as int + 32 else e[i] as int
      {
        LowerReads(e, i);
      }
      hide Lower;
      var l := Lower(e);
      assert l == ".json" <==> l[0] == '.' && l[1] == 'j' && l[2] == 's' && l[3] == 'o' && l[4] == 'n';
    }
  }

  /** Path elements with slashes between them. */
  function Joined(es: seq<string>): string
    requires es != []
  {
    if |es| == 1 then es[0] else es[0] + "/" + Joined(es[1..])
  }

  /** The elements of a path are what stands between its slashes. */
  lemma {:induction false} ElementsRead(name: string)
    ensures Joined(Elements(name)) == name && forall e :: e in Elements(name) ==> '/' !in e
  {
    if name != "" {
      ElementsRead(name[1..]);
      var rest := Elements(name[1..]);
      if name[0] == '/' {
        assert ([""] + rest)[1..] == rest;
        assert Joined([""] + rest) == "" + "/" + Joined(rest);
      } else {
        var es := [[name[0]] + rest[0]] + rest[1..];
        assert es[1..] == rest[1..];
        assert Joined(es) == [name[0]] + Joined(rest);
      }
    }
  }

  /** A safe path has no backslash, no empty element - so it is neither empty nor absolute - and none that names a
      directory relative to where it stands. */
  lemma SafePathReads(name: string)
    ensures SafePath(name) <==> '\\' !in name && "" !in Elements(name) && "." !in Elements(name) && ".." !in Elements(name)
    ensures SafePath(name) ==> name != "" && name[0] != '/'
  {
    if name != "" && name[0] == '/' {
      assert Elements(name)[0] == "";
    }
  }

  // ----- what is taken in -----

  /** A ZIP entry is taken in if its number and its declared size fit into what is left of 1000 entries and 32 MiB, and it
      is a directory, or a regular file at a safe path that is no JSON file or can be read within 1 MiB and within what is
      left; what it yields beyond its declaration is paid for. */
  lemma ZipEntryGranted(a: Account, e: ZipEntry)
    requires Solvent(a)
    ensures var (b, granted) := ZipCharge()(a, e);
            var declared, actual := e.declared as int, |e.content|;
            && (granted <==>
                  && a.entries < 1000 && a.expanded + declared <= 33_554_432
                  && (e.isDir
                      || (e.isRegular && SafePath(e.name)
                          && (IsJson(e.name) ==>
                                && declared <= 1_048_576 && e.canOpen && e.readsWell && e.closesWell
                                && actual <= 1_048_576 && (actual > declared ==> a.expanded + actual <= 33_554_432)))))
            && (granted ==>
                  b == Account(a.entries + 1,
                               a.expanded + if !e.isDir && IsJson(e.name) && actual > declared then actual else declared))
  {
    hide SafePath, IsJson;
  }

  /** The same for a tar entry, which never yields more than it declares. */
  lemma TarEntryGranted(a: Account, e: TarEntry)
    requires Solvent(a)
    ensures var (b, granted) := TarCharge()(a, e);
            && (granted <==>
                  && e.TarEntry? && 0 <= e.size && a.entries < 1000 && a.expanded + e.size <= 33_554_432
                  && (e.isDir
                      || (e.isRegular && SafePath(e.name) && (IsJson(e.name) ==> e.size <= 1_048_576 && e.readsWell))))
            && (granted ==> b == Account(a.entries + 1, a.expanded + e.size))
  {
    hide SafePath, IsJson;
  }

  /** An archive is granted if and only if each of its entries is, charged one after the other. */
  lemma {:induction false} GrantedThroughout<E>(charge: (Account, E) -> (Account, bool), a: Account, es: seq<E>, n: nat)
    requires n <= |es|
    ensures Charges(charge, a, es, n).1 <==> forall i :: 0 <= i < n ==> Granted(charge, a, es, i)
    ensures n < |es| && Charges(charge, a, es, n).1 ==> Charges(charge, a, es, n + 1) == charge(Charges(charge, a, es, n).0, es[n])
    ensures Charges(charge, a, es, 0) == (a, true)
  {
    if n > 0 {
      GrantedThroughout(charge, a, es, n - 1);
      assert Charges(charge, a, es, n).1 <==> Charges(charge, a, es, n - 1).1 && Granted(charge, a, es, n - 1);
    }
  }

  /** The charge for entry `i` is granted after the charges for the entries in front of it. */
  predicate Granted<E>(charge: (Account, E) -> (Account, bool), a: Account, es: seq<E>, i: nat)
    requires i < |es|
  {
    charge(Charges(charge, a, es, i).0, es[i]).1
  }

  /** An upload is taken in if it can be read - up to 1 MiB for a file and 8 MiB for an archive - and its file is within the
      budget, or all entries of its archive are and at least one of them is a credential file. */
  lemma UploadGranted(a: Account, file: Option<Upload>, archive: Archive, parse: Parse)
    requires Solvent(a)
    ensures UploadCharge(a, file, archive, parse).1 <==>
              && file.Some?
              && var u := file.value;
                 var limit := if archive.Plain? then 1_048_576 else 8_388_608;
                 && 0 < u.size <= limit && |u.content| <= limit && u.canOpen && u.readsWell && u.closesWell
                 && match archive
                    case Plain => a.entries < 1000 && a.expanded + |u.content| <= 33_554_432
                    case Zip =>
                      && u.zip.Some? && Charges(ZipCharge(), a, u.zip.value, |u.zip.value|).1
                      && ZipFiles(u.name, u.zip.value, |u.zip.value|, parse) != []
                    case TarGz =>
                      && u.tar.Some? && Charges(TarCharge(), a, u.tar.value, |u.tar.value|).1 && u.gzipClosesWell
                      && TarFiles(u.name, u.tar.value, |u.tar.value|, parse) != []
  {
    hide ZipCharge, TarCharge, ZipFiles, TarFiles, NewFile;
  }

  // ----- what it becomes -----

  /** A file with its contents and the priority they ask for. */
  predicate IsFile(f: ImportFile, fileName: FileName, sortName: string, raw: Bytes, parse: Parse) {
    && f.fileName == fileName && f.sortName == sortName && f.raw == raw
    && match parse(raw)
       case Some(priority) => f.priority == priority && f.err.None?
       case None => f.priority == 0 && f.err == Some(BadPriority)
  }

  /** The JSON files of a ZIP archive become its files, each once and in order. */
  lemma {:induction false} ZipFilesRead(archive: string, zip: seq<ZipEntry>, n: nat, parse: Parse, i: nat) returns (k: nat)
    requires i < n <= |zip| && !zip[i].isDir && IsJson(zip[i].name)
    ensures var fs := ZipFiles(archive, zip, n, parse);
            && k == |ZipFiles(archive, zip, i, parse)| < |fs|
            && IsFile(fs[k], Member(archive, zip[i].name), zip[i].name, zip[i].content, parse)
  {
    hide IsJson;
    if i < n - 1 {
      k := ZipFilesRead(archive, zip, n - 1, parse, i);
    } else {
      k := |ZipFiles(archive, zip, i, parse)|;
    }
  }

  /** ... and nothing else does. */
  lemma {:induction false} ZipFilesComeFromEntries(archive: string, zip: seq<ZipEntry>, n: nat, parse: Parse, k: nat) returns (i: nat)
    requires n <= |zip| && k < |ZipFiles(archive, zip, n, parse)|
    ensures i < n && !zip[i].isDir && IsJson(zip[i].name) && k == |ZipFiles(archive, zip, i, parse)|
  {
    hide IsJson;
    if k < |ZipFiles(archive, zip, n - 1, parse)| {
      i := ZipFilesComeFromEntries(archive, zip, n - 1, parse, k);
    } else {
      i := n - 1;
    }
  }

  /** The same for a tar archive. */
  lemma {:induction false} TarFilesRead(archive: string, tar: seq<TarEntry>, n: nat, parse: Parse, i: nat) returns (k: nat)
    requires i < n <= |tar| && tar[i].TarEntry? && !tar[i].isDir && IsJson(tar[i].name)
    ensures var fs := TarFiles(archive, tar, n, parse);
            && k == |TarFiles(archive, tar, i, parse)| < |fs|
            && IsFile(fs[k], Member(archive, tar[i].name), tar[i].name, tar[i].content, parse)
  {
    hide IsJson;
    if i < n - 1 {
      k := TarFilesRead(archive, tar, n - 1, parse, i);
    } else {
      k := |TarFiles(archive, tar, i, parse)|;
    }
  }

  lemma {:induction false} TarFilesComeFromEntries(archive: string, tar: seq<TarEntry>, n: nat, parse: Parse, k: nat) returns (i: nat)
    requires n <= |tar| && k < |TarFiles(archive, tar, n, parse)|
    ensures i < n && tar[i].TarEntry? && !tar[i].isDir && IsJson(tar[i].name) && k == |TarFiles(archive, tar, i, parse)|
  {
    hide IsJson;
    if k < |TarFiles(archive, tar, n - 1, parse)| {
      i := TarFilesComeFromEntries(archive, tar, n - 1, parse, k);
    } else {
      i := n - 1;
    }
  }

  /** What an upload contributes: one failure without contents if it was refused or is missing, and otherwise its file or
      the files of its archive. */
  lemma ContributionReads(file: Option<Upload>, archive: Archive, refused: bool, parse: Parse)
    ensures var items := Contribution(file, archive, refused, parse);
            if refused || file.None? then
              var name := if file.Some? then file.value.name else "";
              items == [ImportFile(Uploaded(name), name, [], 0, Some(NotExpanded))]
            else
              var u := file.value;
              match archive
              case Plain => |items| == 1 && IsFile(items[0], Uploaded(u.name), u.name, u.content, parse)
              case Zip => items == if u.zip.Some? then ZipFiles(u.name, u.zip.value, |u.zip.value|, parse) else []
              case TarGz => items == if u.tar.Some? then TarFiles(u.name, u.tar.value, |u.tar.value|, parse) else []
  {
    hide ZipFiles, TarFiles;
  }

  // ----- in which order -----

  /** Files are imported from the lowest priority to the highest, and those of one priority by name without regard to
      case, then by name, then by the name that is shown, which for a member of an archive begins with the archive. */
  lemma ImportOrder(items: seq<ImportFile>, i: nat, j: nat)
    requires Sorting.SortedBy(items, Before) && i < j < |items|
    ensures var a, b := items[i], items[j];
            var shown := (f: ImportFile) =>
              match f.fileName case Uploaded(name) => name case Member(archive, name) => archive + ['/'] + name;
            var x, y := Lower(a.sortName), Lower(b.sortName);
            || a.priority < b.priority
            || (a.priority == b.priority
                && (Less(x, y) || (x == y
                    && (Less(a.sortName, b.sortName) || (a.sortName == b.sortName
                        && (Less(shown(a), shown(b)) || shown(a) == shown(b)))))))
  {
    hide Lower, Less;
    var a, b := items[i], items[j];
    assert !Before(b, a);
    LessOrders(Lower(a.sortName), Lower(b.sortName), "");
    LessOrders(a.sortName, b.sortName, "");
    LessOrders(Shown(a.fileName), Shown(b.fileName), "");
  }
}
