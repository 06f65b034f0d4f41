/** Installation of a fresh user CA: three files staged, renamed into place and registered,
    with everything undone on failure (`src/ski/ca.py`, `src/ski/ca_commands.py`). */
module CaInstallation {
  import opened Basics
  import opened Ledger
  import opened LedgerRules
  import opened StateDatabases

  /** What a file holds; `Partial` is a file whose writing was interrupted. */
  datatype Content = Partial | Text(text: string)

  const EMPTY_KRL := Text("empty key revocation list")

  type Files = map<Path, Content>

  datatype CaFileError =
    | PathUnavailable
    | PathsNotDistinct
    | AlreadyExists
    | AlgorithmUnsupported
    | GenerationFailed
    | InstallationFailed

  /** A generated CA key: how its public half imports, and the two files' contents. */
  datatype Material = Material(key: PublicKey, fingerprint: string, privateText: string, publicText: string)

  class FileSystem {
    const directories: set<string>

    /** When set, no operation fails by itself. */
    const reliable: bool

    var files: Files

    /** How many operations have failed by themselves so far. */
    ghost var faults: nat

    ghost predicate Valid()
      reads this
    {
      reliable ==> faults == 0
    }

    constructor (directories: set<string>, reliable: bool, files: Files)
      ensures Valid() && this.directories == directories && this.reliable == reliable && this.files == files
    {
      this.directories, this.reliable, this.files, faults := directories, reliable, files, 0;
    }

    method Faults() returns (fault: bool)
      requires Valid()
      modifies this`faults
      ensures Valid() && faults == old(faults) + (if fault then 1 else 0)
    {
      fault := *;
      if reliable { fault := false; }
      if fault { faults := faults + 1; }
    }

    method Create(path: Path) returns (ok: bool)
      requires Valid() && path !in files
      modifies this
      ensures Valid() && faults == old(faults) + (if ok then 0 else 1)
      ensures files == if ok then old(files)[path := Partial] else old(files)
    {
      var fault := Faults();
      ok := !fault;
      if ok { files := files[path := Partial]; }
    }

    method Write(path: Path, content: Content) returns (ok: bool)
      requires Valid() && path in files
      modifies this
      ensures Valid() && faults == old(faults) + (if ok then 0 else 1)
      ensures if ok then files == old(files)[path := content] else files - {path} == old(files) - {path}
    {
      var fault := Faults();
      ok := !fault;
      files := files[path := if ok then content else Partial];
    }

    /** Removes a file if it exists. */
    method Unlink(path: Path)
      modifies this`files
      ensures files == old(files) - {path}
    {
      files := files - {path};
    }

    /** Moves a file over its target in one step, or does nothing. */
    method Rename(source: Path, target: Path) returns (ok: bool)
      requires Valid() && source in files
      modifies this
      ensures Valid() && faults == old(faults) + (if ok then 0 else 1)
      ensures files == if ok then (old(files) - {source})[target := old(files)[source]] else old(files)
    {
      var fault := Faults();
      ok := !fault;
      if ok { files := (files - {source})[target := files[source]]; }
    }

    method UnlinkAll(paths: seq<Path>)
      modifies this`files
      ensures files == old(files) - Elements(paths)
    {
      for i := 0 to |paths|
        invariant files == old(files) - Elements(paths[..i])
      {
        assert Elements(paths[..i + 1]) == Elements(paths[..i]) + {paths[i]};
        Unlink(paths[i]);
      }
      assert paths[..|paths|] == paths;
    }
  }

  predicate ProperName(path: Path) { path.name !in ["", ".", ".."] }

  /** The targets of an installation, in the order private key, public key, revocation list. */
  ghost predicate Suitable(fs: FileSystem, targets: seq<Path>)
    reads fs
  {
    && Distinct(targets)
    && forall i :: 0 <= i < |targets| ==>
         ProperName(targets[i]) && targets[i].directory in fs.directories && targets[i] !in fs.files
  }

  /** Names for temporary files that nothing uses yet. */
  ghost predicate FreshNames(files: Files, targets: seq<Path>, temps: seq<Path>) {
    && |temps| == |targets| == 3
    && Distinct(temps)
    && forall i :: 0 <= i < |temps| ==> temps[i] !in files && temps[i] !in targets
  }

  function Contents(m: Material): seq<Content> { [Text(m.privateText), Text(m.publicText), EMPTY_KRL] }

  /** The three files of an installed CA on top of what was there. */
  function Installed(files: Files, targets: seq<Path>, m: Material): Files
    requires |targets| == 3
  {
    files[targets[0] := Text(m.privateText)][targets[1] := Text(m.publicText)][targets[2] := EMPTY_KRL]
  }

  /** Files after staging: the first `done` contents at their targets, those from there up to
      `staged` at their temporary names. */
  ghost function Staged(files: Files, targets: seq<Path>, temps: seq<Path>, contents: seq<Content>, done: nat,
                        staged: nat): Files
    requires done <= staged <= |targets| == |temps| == |contents|
  {
    if staged == 0 then files
    else
      var k := staged - 1;
      if k < done then Staged(files, targets, temps, contents, k, k)[targets[k] := contents[k]]
      else Staged(files, targets, temps, contents, done, k)[temps[k] := contents[k]]
  }

  class CaFileWriter {
    const fs: FileSystem

    constructor (fs: FileSystem)
      ensures this.fs == fs
    {
      this.fs := fs;
    }

    method ValidateTargets(targets: seq<Path>) returns (r: Result<(), CaFileError>)
      ensures r.Ok? <==> Suitable(fs, targets)
    {
      for i := 0 to |targets|
        invariant Suitable(fs, targets[..i])
      {
        var path := targets[i];
        if CheckPath(path).Err? || path.directory !in fs.directories { return Err(PathUnavailable); }
        if path in targets[..i] { return Err(PathsNotDistinct); }
        if path in fs.files { return Err(AlreadyExists); }
      }
      assert targets[..|targets|] == targets;
      return Ok(());
    }

    method WriteTemp(temp: Path, content: Content) returns (ok: bool)
      requires fs.Valid() && temp !in fs.files
      modifies fs
      ensures fs.Valid() && fs.faults == old(fs.faults) + (if ok then 0 else 1)
      ensures fs.files == if ok then old(fs.files)[temp := content] else old(fs.files)
    {
      ok := fs.Create(temp);
      if !ok { return; }
      ok := fs.Write(temp, content);
      if !ok { fs.Unlink(temp); }
    }

    /** Creates the revocation list through an outside command. `closeRaises` and `modeRaises`
        say whether closing the name reserved for it, and setting the mode of the result,
        raise: these failures alone leave the file behind. */
    method WriteEmptyKrl(temp: Path, closeRaises: bool, modeRaises: bool) returns (ok: bool)
      requires fs.Valid() && temp !in fs.files
      modifies fs
      ensures fs.Valid() && old(fs.faults) <= fs.faults
      ensures if ok then fs.files == old(fs.files)[temp := EMPTY_KRL] else fs.files - {temp} == old(fs.files)
      ensures ok ==> !closeRaises && !modeRaises
      ensures !ok && temp in fs.files ==> closeRaises || modeRaises
      ensures fs.faults == old(fs.faults) ==> ok == (!closeRaises && !modeRaises) && temp in fs.files
    {
      ok := fs.Create(temp);
      if !ok { return; }
      if closeRaises { return false; }
      fs.Unlink(temp);
      ok := fs.Create(temp);
      if !ok { return; }
      ok := fs.Write(temp, EMPTY_KRL);
      if !ok {
        fs.Unlink(temp);
        return;
      }
      ok := !modeRaises;
    }

    /** Writes all three contents under temporary names, or removes what it wrote but for a
        revocation list left as described there. */
    method Stage(targets: seq<Path>, temps: seq<Path>, m: Material, closeRaises: bool, modeRaises: bool)
      returns (ok: bool)
      requires fs.Valid() && FreshNames(fs.files, targets, temps)
      modifies fs
      ensures fs.Valid() && old(fs.faults) <= fs.faults
      ensures if ok then fs.files == Staged(old(fs.files), targets, temps, Contents(m), 0, 3)
              else fs.files - {temps[2]} == old(fs.files)
      ensures ok ==> !closeRaises && !modeRaises
      ensures !ok && temps[2] in fs.files ==> closeRaises || modeRaises
      ensures fs.faults == old(fs.faults) ==> ok == (!closeRaises && !modeRaises) && (!ok ==> temps[2] in fs.files)
    {
      ghost var before := fs.files;
      ok := WriteTemp(temps[0], Text(m.privateText));
      if !ok { return; }
      ok := WriteTemp(temps[1], Text(m.publicText));
      if !ok {
        assert Elements([temps[0]]) == {temps[0]};
        fs.UnlinkAll([temps[0]]);
        return;
      }
      ok := WriteEmptyKrl(temps[2], closeRaises, modeRaises);
      if !ok {
        assert Elements([temps[0], temps[1]]) == {temps[0], temps[1]};
        ghost var left := fs.files;
        assert left - {temps[2]} == before[temps[0] := Text(m.privateText)][temps[1] := Text(m.publicText)];
        fs.UnlinkAll([temps[0], temps[1]]);
        assert fs.files - {temps[2]} == (left - {temps[2]}) - {temps[0], temps[1]} == before;
        return;
      }
      StagedThree(before, targets, temps, Contents(m), 0);
    }

    /** Renames the staged files to their targets, checking each, or removes them all. */
    method MoveIntoPlace(targets: seq<Path>, temps: seq<Path>, m: Material, ghost before: Files) returns (ok: bool)
      requires fs.Valid() && Stageable(before, targets, temps)
      requires fs.files == Staged(before, targets, temps, Contents(m), 0, 3)
      modifies fs
      ensures fs.Valid() && fs.faults == old(fs.faults) + (if ok then 0 else 1)
      ensures fs.files == if ok then Installed(before, targets, m) else before
    {
      ghost var contents := Contents(m);
      var temporary, installed: seq<Path> := temps, [];
      for i := 0 to 3
        invariant fs.Valid() && fs.faults == old(fs.faults)
        invariant temporary == temps[i..] && installed == targets[..i]
        invariant fs.files == Staged(before, targets, temps, contents, i, 3)
      {
        StagedNext(before, targets, temps, contents, i);
        ok := fs.Rename(temps[i], targets[i]);
        if ok {
          installed := installed + [targets[i]];
          temporary := temporary[1..];
          var unsafe := fs.Faults();
          ok := !unsafe;
        }
        if !ok {
          StagedUndone(before, targets, temps, contents, |installed|);
          fs.UnlinkAll(temporary);
          fs.UnlinkAll(installed);
          return;
        }
      }
      StagedDone(before, targets, temps, m);
      ok := true;
    }

    /** Installs all three files, or leaves the file system as it was, save for a temporary
        revocation list if closing its reserved name or setting its mode raised. */
    method Install(targets: seq<Path>, temps: seq<Path>, generated: Option<Material>, closeRaises: bool,
                   modeRaises: bool)
      returns (r: Result<Material, CaFileError>)
      requires fs.Valid() && FreshNames(fs.files, targets, temps)
      modifies fs
      ensures fs.Valid() && old(fs.faults) <= fs.faults
      ensures r.Ok? ==> old(Suitable(fs, targets)) && generated == Some(r.value) && HasEd25519(generated)
                        && !closeRaises && !modeRaises && fs.files == Installed(old(fs.files), targets, r.value)
      ensures r.Err? ==> fs.files - {temps[2]} == old(fs.files)
                         && (temps[2] in fs.files ==> closeRaises || modeRaises)
      ensures fs.faults == old(fs.faults) ==>
                var reached := old(Suitable(fs, targets)) && HasEd25519(generated);
                && (r.Ok? <==> reached && !closeRaises && !modeRaises)
                && (r.Err? ==> (temps[2] in fs.files <==> reached))
    {
      var validated := ValidateTargets(targets);
      if validated.Err? { return Err(validated.error); }
      if generated.None? { return Err(GenerationFailed); }
      if generated.value.key.Unreadable? || generated.value.key.algorithm != ALGORITHM {
        return Err(AlgorithmUnsupported);
      }
      ghost var before := fs.files;
      var ok := Stage(targets, temps, generated.value, closeRaises, modeRaises);
      if ok { ok := MoveIntoPlace(targets, temps, generated.value, before); }
      r := if ok then Ok(generated.value) else Err(InstallationFailed);
    }
  }

  /** A key was generated, and it is an Ed25519 key. */
  predicate HasEd25519(generated: Option<Material>) {
    generated.Some? && generated.value.key.PublicKey? && generated.value.key.algorithm == "ssh-ed25519"
  }

  ghost predicate Stageable(files: Files, targets: seq<Path>, temps: seq<Path>) {
    && FreshNames(files, targets, temps) && Distinct(targets)
    && forall i :: 0 <= i < |targets| ==> targets[i] !in files
  }

  lemma StagedThree(files: Files, targets: seq<Path>, temps: seq<Path>, contents: seq<Content>, done: nat)
    requires done <= 3 == |targets| == |temps| == |contents|
    ensures Staged(files, targets, temps, contents, done, 3) ==
            files[if done > 0 then targets[0] else temps[0] := contents[0]]
                 [if done > 1 then targets[1] else temps[1] := contents[1]]
                 [if done > 2 then targets[2] else temps[2] := contents[2]]
  {
    var one := Staged(files, targets, temps, contents, if done > 1 then 1 else done, 1);
    assert Staged(files, targets, temps, contents, 0, 0) == files;
    assert one == files[if done > 0 then targets[0] else temps[0] := contents[0]];
    var two := Staged(files, targets, temps, contents, if done > 2 then 2 else done, 2);
    assert two == one[if done > 1 then targets[1] else temps[1] := contents[1]];
  }

  /** A rename takes one staged file to its target. */
  lemma StagedNext(files: Files, targets: seq<Path>, temps: seq<Path>, contents: seq<Content>, i: nat)
    requires Stageable(files, targets, temps) && |contents| == 3 && i < 3
    ensures temps[i] in Staged(files, targets, temps, contents, i, 3)
    ensures var now := Staged(files, targets, temps, contents, i, 3);
            Staged(files, targets, temps, contents, i + 1, 3) == (now - {temps[i]})[targets[i] := now[temps[i]]]
  {
    StagedThree(files, targets, temps, contents, i);
    StagedThree(files, targets, temps, contents, i + 1);
  }

  /** Removing what is left of the temporary names, and the targets reached, undoes staging. */
  lemma StagedUndone(files: Files, targets: seq<Path>, temps: seq<Path>, contents: seq<Content>, done: nat)
    requires Stageable(files, targets, temps) && |contents| == 3 && done <= 3
    ensures Staged(files, targets, temps, contents, done, 3) - Elements(temps[done..]) - Elements(targets[..done])
            == files
  {
    StagedThree(files, targets, temps, contents, done);
    assert forall k :: done <= k < 3 ==> temps[k] in temps[done..];
    assert forall k :: 0 <= k < done ==> targets[k] in targets[..done];
    assert forall p :: p in temps[done..] ==> p in temps;
    assert forall p :: p in targets[..done] ==> p in targets;
  }

  lemma StagedDone(files: Files, targets: seq<Path>, temps: seq<Path>, m: Material)
    requires |targets| == |temps| == 3
    ensures Staged(files, targets, temps, Contents(m), 3, 3) == Installed(files, targets, m)
  {
    StagedThree(files, targets, temps, Contents(m), 3);
  }

  // ---- initialization ----

  datatype InitError = FileError(fileError: CaFileError) | DatabaseError(stateError: StateError) | ActiveCaRegistered

  /** What registering a generated key adds to the ledger, row by row: an active CA with the key
      and the private key's path, and an allowance, dated alike, that names the new CA only. */
  ghost predicate CaAdded(before: Tables, after: Tables, m: Material, path: Path, requestId: string, at: Moment,
                          record: CaRecord)
  {
    var id, time := record.caId, record.activatedAt;
    && Timestamp(at) == Ok(time)
    && record == CaRecord(id, "ssh-ed25519", m.key, m.fingerprint, path, time, "active")
    && after.certificates == before.certificates
    && after.ca == before.ca + [CaRow(id, "ssh-ed25519", m.key, m.fingerprint, path, time, "active")]
    && |after.events| == |before.events| + 1
    && after.events == before.events + [
         EventRow(after.events[|before.events|].eventId, time, "ca_initialized", "allow", requestId, None, Some(id),
                  None)]
  }

  /** Installs the CA files and registers the CA with its event, or undoes both. If neither
      closing the name reserved for the revocation list nor setting its mode raises, every
      failure leaves files and ledger exactly as they were. */
  method InitializeCa(writer: CaFileWriter, database: StateDatabase, targets: seq<Path>, temps: seq<Path>,
                      generated: Option<Material>, requestId: string, at: Moment, closeRaises: bool, modeRaises: bool)
    returns (r: Result<CaRecord, InitError>)
    requires database.Ready() && writer.fs.Valid() && writer.fs as object != database
    requires FreshNames(writer.fs.files, targets, temps)
    modifies writer.fs, database
    ensures database.Valid() && writer.fs.Valid()
    ensures r.Ok? ==>
              && generated.Some? && old(Suitable(writer.fs, targets)) && !closeRaises && !modeRaises
              && writer.fs.files == Installed(old(writer.fs.files), targets, generated.value)
              && CaAdded(old(database.durable), database.durable, generated.value, targets[0], requestId, at, r.value)
    ensures r.Err? ==> database.durable == old(database.durable)
    ensures r.Err? && !closeRaises && !modeRaises ==> writer.fs.files == old(writer.fs.files)
    ensures r.Err? ==> writer.fs.files - {temps[2]} == old(writer.fs.files)
    ensures writer.fs.faults == old(writer.fs.faults) && database.faults == old(database.faults) ==>
              var suitable := old(Suitable(writer.fs, targets));
              && (r.Ok? <==> suitable && CanInitialize(old(database.durable), generated, targets, requestId, at)
                             && !closeRaises && !modeRaises)
              && (r.Err? ==> (temps[2] in writer.fs.files <==>
                                && suitable && HasEd25519(generated) && (closeRaises || modeRaises)
                                && NoneActive(old(database.durable))))
  {
    hide RegisterCa, DecodeCa, Timestamp, Registration, CaAdded, ProperName, HasEd25519;
    ActiveConflicts(database.durable, generated, targets, requestId, at);
    var active := database.GetActiveCa();
    if active.Err? { return Err(DatabaseError(active.error)); }
    if active.value.Some? { return Err(ActiveCaRegistered); }
    var installed := writer.Install(targets, temps, generated, closeRaises, modeRaises);
    if installed.Err? { return Err(FileError(installed.error)); }
    ghost var found := database.durable;
    var registered := database.RegisterActiveCa(Registration(installed.value, targets[0], requestId, at));
    if registered.Err? {
      InstalledUndone(old(writer.fs.files), targets, installed.value);
      writer.fs.UnlinkAll(targets);
      return Err(DatabaseError(registered.error));
    }
    RegistrationAdds(found, database.durable, installed.value, targets[0], requestId, at, registered.value);
    r := Ok(registered.value);
  }

  lemma {:induction false} RegistrationAdds(before: Tables, after: Tables, m: Material, path: Path,
                                            requestId: string, at: Moment, record: CaRecord)
    requires RegisterCa(before, Registration(m, path, requestId, at)) == Ok((after, record))
    ensures CaAdded(before, after, m, path, requestId, at, record)
  {
    hide RegisterCa;
    CaAccepted(before, Registration(m, path, requestId, at));
  }

  ghost predicate NoneActive(t: Tables) {
    forall i :: 0 <= i < |t.ca| ==> t.ca[i].status != "active"
  }

  lemma ActiveConflicts(t: Tables, generated: Option<Material>, targets: seq<Path>, requestId: string, at: Moment)
    requires |targets| == 3
    ensures CanInitialize(t, generated, targets, requestId, at) ==> NoneActive(t)
  {
    hide CheckCa, HasEd25519;
  }

  /** Whatever the targets and the key, an initialization on an empty ledger whose revocation
      list cannot be given its mode fails and leaves that list behind. */
  method RevocationListCanRemain(directories: set<string>, files: Files, targets: seq<Path>, temps: seq<Path>,
                                 m: Material, requestId: string, at: Moment)
    returns (r: Result<CaRecord, InitError>, left: Files)
    requires FreshNames(files, targets, temps) && Distinct(targets) && HasEd25519(Some(m))
    requires forall i :: 0 <= i < |targets| ==>
               ProperName(targets[i]) && targets[i].directory in directories && targets[i] !in files
    ensures r.Err? && temps[2] in left && left - {temps[2]} == files
  {
    var fs := new FileSystem(directories, true, files);
    var database := new StateDatabase(EMPTY, true);
    var writer := new CaFileWriter(fs);
    r := InitializeCa(writer, database, targets, temps, Some(m), requestId, at, false, true);
    left := fs.files;
  }

  /** Registering the generated key would succeed on this ledger. */
  predicate CanInitialize(t: Tables, generated: Option<Material>, targets: seq<Path>, requestId: string, at: Moment)
    requires |targets| == 3
  {
    HasEd25519(generated)
    && RegisterCa(t, Registration(generated.value, targets[0], requestId, at)).Ok?
  }

  function Registration(m: Material, privatePath: Path, requestId: string, at: Moment): NewCa {
    NewCa(m.key, m.fingerprint, privatePath, at, Some(requestId))
  }

  lemma InstalledUndone(files: Files, targets: seq<Path>, m: Material)
    requires |targets| == 3 && forall i :: 0 <= i < 3 ==> targets[i] !in files
    ensures Installed(files, targets, m) - Elements(targets) == files
  {
    assert Elements(targets) == {targets[0], targets[1], targets[2]};
  }

  /** A successful initialization adds exactly three files with the key's two halves and an empty
      list, one active CA, which is then the only one, and its event. */
  lemma {:induction false} InitializationAdds(files: Files, targets: seq<Path>, t: Tables, c: NewCa, m: Material)
    requires |targets| == 3 && Distinct(targets) && (forall i :: 0 <= i < 3 ==> targets[i] !in files)
    requires RegisterCa(t, c).Ok? && c.requestId.Some?
    ensures var after := Installed(files, targets, m);
            && after.Keys == files.Keys + Elements(targets) && |Elements(targets)| == 3
            && (forall p :: p in files ==> after[p] == files[p])
            && after[targets[0]] == Text(m.privateText) && after[targets[1]] == Text(m.publicText)
            && after[targets[2]] == EMPTY_KRL
    ensures var after := RegisterCa(t, c).value.0;
            && after.certificates == t.certificates
            && |after.ca| == |t.ca| + 1 && t.ca <= after.ca
            && |after.events| == |t.events| + 1 && t.events <= after.events
            && var row, event := after.ca[|t.ca|], after.events[|t.events|];
               && row.publicKey == c.key == PublicKey("ssh-ed25519", c.fingerprint)
               && row.fingerprint == c.fingerprint && row.privateKeyPath == c.path && row.algorithm == "ssh-ed25519"
               && event == EventRow(event.eventId, row.activatedAt, "ca_initialized", "allow", c.requestId.value,
                                    None, Some(row.caId), None)
               && forall i :: 0 <= i < |after.ca| ==> (after.ca[i].status == "active" <==> i == |t.ca|)
  {
    hide RegisterCa, Installed;
    CaAccepted(t, c);
    FilesAdded(files, targets, m);
  }

  lemma FilesAdded(files: Files, targets: seq<Path>, m: Material)
    requires |targets| == 3 && Distinct(targets) && (forall i :: 0 <= i < 3 ==> targets[i] !in files)
    ensures var after := Installed(files, targets, m);
            && after.Keys == files.Keys + Elements(targets) && |Elements(targets)| == 3
            && (forall p :: p in files ==> after[p] == files[p])
            && after[targets[0]] == Text(m.privateText) && after[targets[1]] == Text(m.publicText)
            && after[targets[2]] == EMPTY_KRL
  {
    SizeMeansDistinct(targets);
    assert Elements(targets) == {targets[0], targets[1], targets[2]};
  }
}
