/**
 * What the reconciler promises, stated over the specification functions of
 * `Filepond` (which the imperative methods are proved to implement): the
 * shape of the effect log of a removal and of the append loop, the path a
 * move produces, the single-mode decision tree input by input, and the
 * set laws and idempotence of multiple mode.
 */
module FilepondLaws {
  import opened Wrappers
  import opened PhpString
  import opened Collections
  import opened ServerId
  import opened Filepond

  // ---------------------------------------------------------------------
  // Projections of an effect log

  /** The three kinds of effect. */
  datatype Kind = Delete | Put | Callback

  predicate IsKind(e: Effect, kind: Kind) {
    match kind
    case Delete => e.StorageDelete?
    case Put => e.StoragePut?
    case Callback => e.OnDeleteCall?
  }

  /** The paths of the effects of one kind, in order. */
  function PathsOf(effects: seq<Effect>, kind: Kind): seq<string>
    decreases |effects|
  {
    if effects == [] then []
    else (if IsKind(effects[0], kind) then [effects[0].path] else []) + PathsOf(effects[1..], kind)
  }

  function Deletes(effects: seq<Effect>): seq<string> { PathsOf(effects, Delete) }
  function Puts(effects: seq<Effect>): seq<string> { PathsOf(effects, Put) }
  function Callbacks(effects: seq<Effect>): seq<string> { PathsOf(effects, Callback) }

  /** The projection of a joined log is the join of the projections. */
  lemma {:induction false} PathsOfAppend(a: seq<Effect>, b: seq<Effect>, kind: Kind)
    ensures PathsOf(a + b, kind) == PathsOf(a, kind) + PathsOf(b, kind)
    decreases |a|
  {
    if a == [] {
      assert a + b == b;
    } else {
      assert (a + b)[1..] == a[1..] + b;
      PathsOfAppend(a[1..], b, kind);
    }
  }

  /** All three projections of a joined log. */
  lemma ProjectionsAppend(a: seq<Effect>, b: seq<Effect>)
    ensures Deletes(a + b) == Deletes(a) + Deletes(b)
    ensures Puts(a + b) == Puts(a) + Puts(b)
    ensures Callbacks(a + b) == Callbacks(a) + Callbacks(b)
  {
    PathsOfAppend(a, b, Delete);
    PathsOfAppend(a, b, Put);
    PathsOfAppend(a, b, Callback);
  }

  /** A log of one effect projects to its path under its own kind and to nothing under the others. */
  lemma PathsOfSingle(e: Effect)
    ensures Deletes([e]) == (if e.StorageDelete? then [e.path] else [])
    ensures Puts([e]) == (if e.StoragePut? then [e.path] else [])
    ensures Callbacks([e]) == (if e.OnDeleteCall? then [e.path] else [])
  {
    PathsOfOne(e, Delete);
    PathsOfOne(e, Put);
    PathsOfOne(e, Callback);
  }

  lemma PathsOfOne(e: Effect, kind: Kind)
    ensures PathsOf([e], kind) == if IsKind(e, kind) then [e.path] else []
  {
    assert [e][1..] == [];
  }

  // ---------------------------------------------------------------------
  // removeFiles

  /** Removing one file: one delete of it, one callback for it when one is set, no write. */
  lemma RemovalProjections(cfg: FieldConfig, file: string, model: Model, attribute: string)
    ensures var log := Removal(cfg, file, model, attribute);
            Deletes(log) == [file] && Puts(log) == [] &&
            Callbacks(log) == (if cfg.onDelete.Some? then [file] else [])
  {
    var delete := StorageDelete(cfg.disk, file);
    PathsOfSingle(delete);
    match cfg.onDelete
    case None =>
      assert Removal(cfg, file, model, attribute) == [delete];
    case Some(callback) =>
      var call := OnDeleteCall(callback, model, attribute, file, cfg.disk);
      assert Removal(cfg, file, model, attribute) == [delete] + [call];
      PathsOfSingle(call);
      ProjectionsAppend([delete], [call]);
  }

  /** The paths of one kind that removing `files` should log. */
  function RemovedPaths(cfg: FieldConfig, files: seq<string>, kind: Kind): seq<string> {
    match kind
    case Delete => files
    case Put => []
    case Callback => if cfg.onDelete.Some? then files else []
  }

  /** `removeFiles`, one kind of effect at a time. */
  lemma {:induction false} RemoveLogPaths(cfg: FieldConfig, files: seq<string>, model: Model, attribute: string, kind: Kind)
    ensures PathsOf(RemoveLog(cfg, files, model, attribute), kind) == RemovedPaths(cfg, files, kind)
    decreases |files|
  {
    if files != [] {
      var init := files[..|files| - 1];
      var last := files[|files| - 1];
      var earlier := RemoveLog(cfg, init, model, attribute);
      var one := Removal(cfg, last, model, attribute);
      assert PathsOf(RemoveLog(cfg, files, model, attribute), kind) == PathsOf(earlier, kind) + PathsOf(one, kind) by {
        assert RemoveLog(cfg, files, model, attribute) == earlier + one;
        PathsOfAppend(earlier, one, kind);
      }
      assert PathsOf(earlier, kind) == RemovedPaths(cfg, init, kind) by {
        RemoveLogPaths(cfg, init, model, attribute, kind);
      }
      assert PathsOf(one, kind) == RemovedPaths(cfg, [last], kind) by {
        RemovalProjections(cfg, last, model, attribute);
      }
      assert RemovedPaths(cfg, init, kind) + RemovedPaths(cfg, [last], kind) == RemovedPaths(cfg, files, kind) by {
        assert init + [last] == files;
      }
    }
  }

  /**
   * `removeFiles` deletes exactly the given files, in order, writes nothing,
   * and hands exactly those files to the callback when one is set.
   */
  lemma RemoveLogProjections(cfg: FieldConfig, files: seq<string>, model: Model, attribute: string)
    ensures var log := RemoveLog(cfg, files, model, attribute);
            Deletes(log) == files && Puts(log) == [] &&
            Callbacks(log) == (if cfg.onDelete.Some? then files else [])
  {
    RemoveLogPaths(cfg, files, model, attribute, Delete);
    RemoveLogPaths(cfg, files, model, attribute, Put);
    RemoveLogPaths(cfg, files, model, attribute, Callback);
  }

  /**
   * The exact interleaving: file `i`'s delete on the configured disk, then
   * (with a callback) the call with the model, the attribute, the file and
   * the disk, and nothing else.
   */
  lemma {:induction false} RemoveLogInterleaving(cfg: FieldConfig, files: seq<string>, model: Model, attribute: string)
    ensures var log := RemoveLog(cfg, files, model, attribute);
            cfg.onDelete.None? ==>
              |log| == |files| &&
              forall i | 0 <= i < |files| :: log[i] == StorageDelete(cfg.disk, files[i])
    ensures var log := RemoveLog(cfg, files, model, attribute);
            cfg.onDelete.Some? ==>
              |log| == 2 * |files| &&
              forall i | 0 <= i < |files| ::
                log[2 * i] == StorageDelete(cfg.disk, files[i]) &&
                log[2 * i + 1] == OnDeleteCall(cfg.onDelete.value, model, attribute, files[i], cfg.disk)
    decreases |files|
  {
    if files != [] {
      var init := files[..|files| - 1];
      RemoveLogInterleaving(cfg, init, model, attribute);
      assert forall i | 0 <= i < |init| :: files[i] == init[i];
    }
  }

  // ---------------------------------------------------------------------
  // moveFile

  /**
   * `moveFile` succeeds exactly when the write is acknowledged, and the path
   * it returns is the trimmed directory and name joined by one `/`, the
   * separator dropped when either is empty. The path has no edge slash, so it
   * never looks like a `/tmp/` upload.
   */
  lemma MovedPathShape(cfg: FieldConfig, host: Host, file: string)
    ensures MoveResult(cfg, host, file).Ok? <==> host.putAck(cfg.disk, FullPath(cfg, file))
    ensures var dir := TrimSlashes(cfg.directory.GetOr(""));
            var name := TrimSlashes(FileName(cfg, file));
            MoveResult(cfg, host, file).Ok? ==>
              MoveResult(cfg, host, file).value ==
                if dir == [] then name else if name == [] then dir else dir + "/" + name
    ensures MoveResult(cfg, host, file).Ok? ==>
              Unpadded(MoveResult(cfg, host, file).value, '/') &&
              !StartsWith(MoveResult(cfg, host, file).value, TmpPrefix)
  {
    TrimSlashesJoin(TrimSlashes(cfg.directory.GetOr("")), TrimSlashes(FileName(cfg, file)));
  }

  /** Without a directory and without `storeAs`, an acknowledged move stores the upload under its basename. */
  lemma MovedToBasename(cfg: FieldConfig, host: Host, file: string)
    requires cfg.directory == None || cfg.directory == Some("")
    requires cfg.storeAs.None?
    ensures MoveResult(cfg, host, file) ==
            if host.putAck(cfg.disk, FullPath(cfg, file)) then Ok(Basename(file)) else Err(UploadFailed)
  {
    assert TrimSlashes(cfg.directory.GetOr("")) == [] by {
      assert cfg.directory.GetOr("") == "";
    }
    assert FileName(cfg, file) == Basename(file);
    assert TrimSlashes(Basename(file)) == Basename(file) by {
      assert Unpadded(Basename(file), '/');
      TrimSlashesFixedPoint(Basename(file));
    }
    MovedPathShape(cfg, host, file);
  }

  /** A `storeAs` callback, when set, names the stored file. */
  lemma MovedToCallbackName(cfg: FieldConfig, host: Host, file: string, name: string -> string)
    requires cfg.directory == None || cfg.directory == Some("")
    requires cfg.storeAs == Some(name)
    ensures MoveResult(cfg, host, file) ==
            if host.putAck(cfg.disk, FullPath(cfg, file)) then Ok(TrimSlashes(name(file))) else Err(UploadFailed)
  {
    assert TrimSlashes(cfg.directory.GetOr("")) == [] by {
      assert cfg.directory.GetOr("") == "";
    }
    assert FileName(cfg, file) == name(file);
    MovedPathShape(cfg, host, file);
  }

  // ---------------------------------------------------------------------
  // The append loop

  /** One guarded move: a write of the full path when the upload exists, nothing else. */
  lemma MoveAttemptProjections(cfg: FieldConfig, host: Host, file: string)
    ensures var log := MoveAttemptLog(cfg, host, file);
            Deletes(log) == [] && Callbacks(log) == [] &&
            Puts(log) == (if host.isFile(file) then [FullPath(cfg, file)] else [])
  {
    PathsOfSingle(StoragePut(cfg.disk, FullPath(cfg, file), file));
  }

  /** The append loop only writes: one write per upload found on disk, never a delete or a callback. */
  lemma {:induction false} MoveLogProjections(cfg: FieldConfig, host: Host, uploads: seq<string>)
    ensures var log := MoveLog(cfg, host, uploads);
            Deletes(log) == [] && Callbacks(log) == [] &&
            |Puts(log)| == |log| <= |uploads|
    decreases |uploads|
  {
    if uploads != [] {
      var init := uploads[..|uploads| - 1];
      var last := uploads[|uploads| - 1];
      MoveLogProjections(cfg, host, init);
      MoveAttemptProjections(cfg, host, last);
      ProjectionsAppend(MoveLog(cfg, host, init), MoveAttemptLog(cfg, host, last));
    }
  }

  /**
   * Every path the append loop keeps was produced by an acknowledged write of
   * one of the uploads, and there are no more of them than writes.
   */
  lemma {:induction false} MovedAcknowledged(cfg: FieldConfig, host: Host, uploads: seq<string>)
    ensures forall p <- Moved(cfg, host, uploads) :: exists u <- uploads ::
              host.isFile(u) && host.putAck(cfg.disk, FullPath(cfg, u)) && p == TrimSlashes(FullPath(cfg, u))
    ensures |Moved(cfg, host, uploads)| <= |MoveLog(cfg, host, uploads)|
    decreases |uploads|
  {
    if uploads != [] {
      var init := uploads[..|uploads| - 1];
      var last := uploads[|uploads| - 1];
      MovedAcknowledged(cfg, host, init);
      forall p <- Moved(cfg, host, uploads)
        ensures exists u <- uploads ::
                  host.isFile(u) && host.putAck(cfg.disk, FullPath(cfg, u)) && p == TrimSlashes(FullPath(cfg, u))
      {
        if p in Moved(cfg, host, init) {
          var u :| u in init && host.isFile(u) && host.putAck(cfg.disk, FullPath(cfg, u)) && p == TrimSlashes(FullPath(cfg, u));
          assert u in uploads;
        } else {
          assert last in uploads;
        }
      }
    }
  }

  /** A non-empty sequence is its front followed by its last element. */
  lemma SnocSplit<T>(ys: seq<T>)
    requires ys != []
    ensures ys == ys[..|ys| - 1] + [ys[|ys| - 1]]
  {
  }

  /** One more upload: the append loop keeps its moved path after the earlier ones when the move succeeds. */
  lemma MovedSnoc(cfg: FieldConfig, host: Host, xs: seq<string>, u: string)
    ensures Moved(cfg, host, xs + [u]) ==
            Moved(cfg, host, xs) + if MoveAttempt(cfg, host, u).Ok? then [MoveAttempt(cfg, host, u).value] else []
  {
    assert (xs + [u])[..|xs|] == xs;
  }

  /** The append loop works upload by upload: the kept paths of a concatenation are the concatenation of kept paths, so upload order is kept. */
  lemma {:induction false} MovedAppend(cfg: FieldConfig, host: Host, xs: seq<string>, ys: seq<string>)
    ensures Moved(cfg, host, xs + ys) == Moved(cfg, host, xs) + Moved(cfg, host, ys)
    decreases |ys|
  {
    if ys == [] {
      assert xs + ys == xs;
    } else {
      var init, last := ys[..|ys| - 1], ys[|ys| - 1];
      var step := if MoveAttempt(cfg, host, last).Ok? then [MoveAttempt(cfg, host, last).value] else [];
      SnocSplit(ys);
      ConcatAssoc(xs, init, [last]);
      MovedAppend(cfg, host, xs, init);
      MovedSnoc(cfg, host, xs + init, last);
      MovedSnoc(cfg, host, init, last);
      ConcatAssoc(Moved(cfg, host, xs), Moved(cfg, host, init), step);
    }
  }

  /** Every upload whose move succeeds is kept by the append loop. */
  lemma {:induction false} MovedComplete(cfg: FieldConfig, host: Host, uploads: seq<string>)
    ensures forall u <- uploads :: MoveAttempt(cfg, host, u).Ok? ==>
              MoveAttempt(cfg, host, u).value in Moved(cfg, host, uploads)
    decreases |uploads|
  {
    if uploads != [] {
      var init, last := uploads[..|uploads| - 1], uploads[|uploads| - 1];
      SnocSplit(uploads);
      MovedComplete(cfg, host, init);
      MovedSnoc(cfg, host, init, last);
      forall u <- uploads | MoveAttempt(cfg, host, u).Ok?
        ensures MoveAttempt(cfg, host, u).value in Moved(cfg, host, uploads)
      {
        if u != last {
          assert u in init;
          assert MoveAttempt(cfg, host, u).value in Moved(cfg, host, init);
        }
      }
    }
  }

  /** When every move succeeds, the kept paths are exactly the moved paths, upload by upload. */
  lemma {:induction false} MovedAllSucceed(cfg: FieldConfig, host: Host, uploads: seq<string>)
    requires forall u <- uploads :: MoveAttempt(cfg, host, u).Ok?
    ensures |Moved(cfg, host, uploads)| == |uploads|
    ensures forall i | 0 <= i < |uploads| :: Moved(cfg, host, uploads)[i] == MoveAttempt(cfg, host, uploads[i]).value
    decreases |uploads|
  {
    if uploads != [] {
      var init, last := uploads[..|uploads| - 1], uploads[|uploads| - 1];
      SnocSplit(uploads);
      assert forall u <- init :: MoveAttempt(cfg, host, u).Ok? by {
        forall u <- init ensures MoveAttempt(cfg, host, u).Ok? {
          assert u in uploads;
        }
      }
      MovedAllSucceed(cfg, host, init);
      MovedSnoc(cfg, host, init, last);
      var kept, saved := Moved(cfg, host, init), MoveAttempt(cfg, host, last).value;
      assert Moved(cfg, host, uploads) == kept + [saved];
      forall i | 0 <= i < |uploads|
        ensures Moved(cfg, host, uploads)[i] == MoveAttempt(cfg, host, uploads[i]).value
      {
        if i < |init| {
          assert Moved(cfg, host, uploads)[i] == kept[i];
          assert uploads[i] == init[i];
        } else {
          assert i == |init| == |kept|;
          assert Moved(cfg, host, uploads)[i] == saved;
        }
      }
    }
  }

  // ---------------------------------------------------------------------
  // Single mode

  /**
   * No input: the held files go through `removeFiles` (each deleted, then
   * handed to the callback when one is set), the attribute ends `null`, and
   * nothing is written.
   */
  lemma SingleWithoutInput(cfg: FieldConfig, host: Host, rev: Revision, current: Attr, model: Model, attribute: string)
    ensures var o := FillSingle(cfg, host, rev, None, current, model, attribute);
            o.value == Null && o.error == None &&
            o.effects == RemoveLog(cfg, Collect(current), model, attribute) &&
            Puts(o.effects) == [] &&
            Deletes(o.effects) == Collect(current) &&
            Callbacks(o.effects) == (if cfg.onDelete.Some? then Collect(current) else []) &&
            (o.effects == [] <==> Collect(current) == [])
  {
    RemoveLogProjections(cfg, Collect(current), model, attribute);
  }

  /** A submitted id that decodes to a path outside `/tmp/` is stored as is, with no move and no delete. */
  lemma SinglePermanentPath(cfg: FieldConfig, host: Host, rev: Revision, serverId: string, path: string,
                            current: Attr, model: Model, attribute: string)
    requires GetPathFromServerId(host.encrypter, serverId) == Some(path)
    requires !StartsWith(path, TmpPrefix)
    ensures FillSingle(cfg, host, rev, Some(serverId), current, model, attribute) == Outcome(Scalar(path), [], None)
  {
  }

  /** Submitting the path the record already holds (outside `/tmp/`) changes nothing. */
  lemma SingleResubmitUnchanged(cfg: FieldConfig, host: Host, rev: Revision, path: string, model: Model, attribute: string)
    requires !Recognised(path, host.encrypter.cipher)
    requires !StartsWith(path, TmpPrefix)
    ensures FillSingle(cfg, host, rev, Some(path), Scalar(path), model, attribute) == Outcome(Scalar(path), [], None)
  {
  }

  /**
   * A `/tmp/` upload the record does not hold yet: the move is attempted and
   * nothing is deleted. The attribute becomes the moved path when the move
   * succeeds and the upload's own `/tmp/` path when it throws.
   */
  lemma SingleTmpUpload(cfg: FieldConfig, host: Host, rev: Revision, serverId: string, path: string,
                        current: Attr, model: Model, attribute: string)
    requires GetPathFromServerId(host.encrypter, serverId) == Some(path)
    requires StartsWith(path, TmpPrefix)
    requires current != Scalar(path)
    ensures var o := FillSingle(cfg, host, rev, Some(serverId), current, model, attribute);
            o.error == None && Deletes(o.effects) == [] && Callbacks(o.effects) == [] &&
            (o.value == Scalar(path) <==> MoveAttempt(cfg, host, path).Err?) &&
            (MoveAttempt(cfg, host, path).Ok? ==>
               o.value == Scalar(MoveAttempt(cfg, host, path).value) &&
               Puts(o.effects) == [FullPath(cfg, path)])
  {
    assert FillSingle(cfg, host, rev, Some(serverId), current, model, attribute) == TmpMove(cfg, host, path, []);
    TmpMoveOutcome(cfg, host, path, []);
    assert [] + MoveAttemptLog(cfg, host, path) == MoveAttemptLog(cfg, host, path);
    MoveAttemptProjections(cfg, host, path);
  }

  /**
   * The single-mode move of a `/tmp/` upload never throws: its effects follow
   * the earlier ones, and the attribute is the upload's own path exactly when
   * the move failed.
   */
  lemma TmpMoveOutcome(cfg: FieldConfig, host: Host, path: string, before: seq<Effect>)
    requires StartsWith(path, TmpPrefix)
    ensures var o := TmpMove(cfg, host, path, before);
            o.error == None && o.effects == before + MoveAttemptLog(cfg, host, path) &&
            (o.value == Scalar(path) <==> MoveAttempt(cfg, host, path).Err?) &&
            (MoveAttempt(cfg, host, path).Ok? ==> o.value == Scalar(MoveAttempt(cfg, host, path).value))
  {
    MovedPathShape(cfg, host, path);
  }

  /**
   * As written, resubmitting the `/tmp/` path the record already holds makes
   * the one-argument `removeFiles` call throw `ArgumentCountError` before
   * anything is deleted or moved.
   */
  lemma SingleSameTmpPathAsWritten(cfg: FieldConfig, host: Host, serverId: string, path: string,
                                   model: Model, attribute: string)
    requires GetPathFromServerId(host.encrypter, serverId) == Some(path)
    requires StartsWith(path, TmpPrefix)
    ensures FillSingle(cfg, host, AsWritten, Some(serverId), Scalar(path), model, attribute) ==
            Outcome(Scalar(path), [], Some(ArgumentCountError))
  {
  }

  /** Removing one file is that file's removal. */
  lemma RemoveLogOne(cfg: FieldConfig, file: string, model: Model, attribute: string)
    ensures RemoveLog(cfg, [file], model, attribute) == Removal(cfg, file, model, attribute)
  {
    assert [file][..0] == [];
  }

  /**
   * With the removal call given its three arguments, the held `/tmp/` file is
   * deleted first (with its `onDelete` callback) and then moved like a fresh
   * upload; the attribute takes the moved path, or keeps the `/tmp/` path when
   * the move fails.
   */
  lemma SingleSameTmpPathRepaired(cfg: FieldConfig, host: Host, serverId: string, path: string,
                                  model: Model, attribute: string)
    requires GetPathFromServerId(host.encrypter, serverId) == Some(path)
    requires StartsWith(path, TmpPrefix)
    ensures var o := FillSingle(cfg, host, ArityRepaired, Some(serverId), Scalar(path), model, attribute);
            o.error == None &&
            o.effects == Removal(cfg, path, model, attribute) + MoveAttemptLog(cfg, host, path) &&
            Deletes(o.effects) == [path] &&
            Callbacks(o.effects) == (if cfg.onDelete.Some? then [path] else []) &&
            Puts(o.effects) == (if host.isFile(path) then [FullPath(cfg, path)] else []) &&
            (o.value == Scalar(path) <==> MoveAttempt(cfg, host, path).Err?) &&
            (MoveAttempt(cfg, host, path).Ok? ==> o.value == Scalar(MoveAttempt(cfg, host, path).value))
  {
    var removed := RemoveLog(cfg, [path], model, attribute);
    RemoveLogOne(cfg, path, model, attribute);
    var o := FillSingle(cfg, host, ArityRepaired, Some(serverId), Scalar(path), model, attribute);
    assert o == TmpMove(cfg, host, path, removed);
    TmpMoveOutcome(cfg, host, path, removed);
    assert Deletes(o.effects) == [path] && Callbacks(o.effects) == (if cfg.onDelete.Some? then [path] else []) &&
           Puts(o.effects) == (if host.isFile(path) then [FullPath(cfg, path)] else []) by {
      RemoveLogProjections(cfg, [path], model, attribute);
      MoveAttemptProjections(cfg, host, path);
      ProjectionsAppend(removed, MoveAttemptLog(cfg, host, path));
    }
  }

  /**
   * `decrypt` failing is the only source of `DecryptException`; it needs an
   * id the heuristic took for a token, and it leaves everything unchanged.
   */
  lemma SingleDecryptFailure(cfg: FieldConfig, host: Host, rev: Revision, serverId: string,
                             current: Attr, model: Model, attribute: string)
    ensures var o := FillSingle(cfg, host, rev, Some(serverId), current, model, attribute);
            (o.error == Some(DecryptException) <==>
               Recognised(serverId, host.encrypter.cipher) && host.encrypter.decrypt(serverId).None?) &&
            (o.error == Some(DecryptException) ==> o.value == current && o.effects == [])
  {
  }

  /** The repair matters only when the held `/tmp/` path is resubmitted; otherwise both texts agree. */
  lemma SingleRepairIsLocal(cfg: FieldConfig, host: Host, input: Option<string>, current: Attr,
                            model: Model, attribute: string)
    requires input.Some? ==>
               match GetPathFromServerId(host.encrypter, input.value)
               case None => true
               case Some(path) => !(StartsWith(path, TmpPrefix) && current == Scalar(path))
    ensures FillSingle(cfg, host, AsWritten, input, current, model, attribute) ==
            FillSingle(cfg, host, ArityRepaired, input, current, model, attribute)
  {
  }

  // ---------------------------------------------------------------------
  // Multiple mode

  /** As written, every multiple-mode save throws before touching anything. */
  lemma MultipleAsWrittenFails(cfg: FieldConfig, host: Host, input: Option<string>, current: Attr,
                               model: Model, attribute: string)
    ensures var o := FillMultiple(cfg, host, AsWritten, input, current, model, attribute);
            o.value == current && o.effects == [] &&
            o.error == if SubmittedPaths(host, input).None? then Some(DecryptException) else Some(ArgumentCountError)
  {
  }

  /**
   * With the removal call repaired, a save reconciles the two lists: the
   * result starts with the submitted entries already held (submission order,
   * duplicates kept) followed by the uploads that moved; exactly the held
   * entries no longer submitted are deleted (and handed to the callback);
   * there are no more writes than new uploads; the result is no longer than
   * the submission.
   */
  lemma MultipleReconcile(cfg: FieldConfig, host: Host, input: Option<string>, files: seq<string>,
                          current: Attr, model: Model, attribute: string)
    requires SubmittedPaths(host, input) == Some(files)
    ensures var o := FillMultiple(cfg, host, ArityRepaired, input, current, model, attribute);
            var kept := Intersect(files, Collect(current));
            o.error == None && o.value.Items? &&
            kept <= o.value.paths &&
            o.value.paths[|kept|..] == Moved(cfg, host, Diff(files, Collect(current))) &&
            |o.value.paths| <= |files| &&
            Deletes(o.effects) == Diff(Collect(current), files) &&
            Callbacks(o.effects) == (if cfg.onDelete.Some? then Diff(Collect(current), files) else []) &&
            |Puts(o.effects)| <= |Diff(files, Collect(current))|
  {
    var cur := Collect(current);
    var toAppend := Diff(files, cur);
    var removed := RemoveLog(cfg, Diff(cur, files), model, attribute);
    var appended := MoveLog(cfg, host, toAppend);
    IntersectDiffPartition(files, cur);
    RemoveLogProjections(cfg, Diff(cur, files), model, attribute);
    MoveLogProjections(cfg, host, toAppend);
    ProjectionsAppend(removed, appended);
    var r := Intersect(files, cur) + Moved(cfg, host, toAppend);
    assert r[|Intersect(files, cur)|..] == Moved(cfg, host, toAppend);
  }

  /** Deleted entries are exactly the held ones that were not submitted: nothing kept is deleted. */
  lemma MultipleDeletesOnlyDropped(cfg: FieldConfig, host: Host, input: Option<string>, files: seq<string>,
                                   current: Attr, model: Model, attribute: string)
    requires SubmittedPaths(host, input) == Some(files)
    ensures var o := FillMultiple(cfg, host, ArityRepaired, input, current, model, attribute);
            forall x :: x in Deletes(o.effects) <==> x in Collect(current) && x !in files
  {
    MultipleReconcile(cfg, host, input, files, current, model, attribute);
    IntersectDiffMembers(Collect(current), files);
  }

  /**
   * Idempotence: when the submission and the held list have the same
   * entries, nothing is deleted or written and the attribute becomes the
   * submitted list.
   */
  lemma MultipleIdempotent(cfg: FieldConfig, host: Host, input: Option<string>, files: seq<string>,
                           current: Attr, model: Model, attribute: string)
    requires SubmittedPaths(host, input) == Some(files)
    requires forall x <- files :: x in Collect(current)
    requires forall x <- Collect(current) :: x in files
    ensures FillMultiple(cfg, host, ArityRepaired, input, current, model, attribute) ==
            Outcome(Items(files), [], None)
  {
    var cur := Collect(current);
    IntersectWhole(files, cur);
    IntersectWhole(cur, files);
    assert Moved(cfg, host, Diff(files, cur)) == [];
    assert Intersect(files, cur) + [] == files;
    assert RemoveLog(cfg, Diff(cur, files), model, attribute) + MoveLog(cfg, host, Diff(files, cur)) == [];
  }

  /**
   * Saving the form unchanged: the held paths, none of which looks like a
   * token or holds a comma, submitted comma-joined, give back the same list
   * with no effect.
   */
  lemma MultipleResubmitStored(cfg: FieldConfig, host: Host, paths: seq<string>, model: Model, attribute: string)
    requires |paths| >= 1
    requires forall i | 0 <= i < |paths| :: ',' !in paths[i] && !Recognised(paths[i], host.encrypter.cipher)
    ensures FillMultiple(cfg, host, ArityRepaired, Some(Implode(paths, ',')), Items(paths), model, attribute) ==
            Outcome(Items(paths), [], None)
  {
    SubmittedPlainIds(host, paths);
    MultipleKeepsSubmittedHeld(cfg, host, Some(Implode(paths, ',')), paths, model, attribute);
  }

  /** Submitting exactly the held list keeps it and does nothing else. */
  lemma MultipleKeepsSubmittedHeld(cfg: FieldConfig, host: Host, input: Option<string>, paths: seq<string>,
                                   model: Model, attribute: string)
    requires SubmittedPaths(host, input) == Some(paths)
    ensures FillMultiple(cfg, host, ArityRepaired, input, Items(paths), model, attribute) ==
            Outcome(Items(paths), [], None)
  {
    MultipleIdempotent(cfg, host, input, paths, Items(paths), model, attribute);
  }

  /** Plain ids without commas, joined by commas, are submitted as themselves. */
  lemma SubmittedPlainIds(host: Host, paths: seq<string>)
    requires |paths| >= 1
    requires forall i | 0 <= i < |paths| :: ',' !in paths[i] && !Recognised(paths[i], host.encrypter.cipher)
    ensures SubmittedPaths(host, Some(Implode(paths, ','))) == Some(paths)
  {
    assert forall p <- paths :: ',' !in p;
    ExplodeImplode(paths, ',');
    PlainIdsDecodeToThemselves(host.encrypter, paths);
  }

  /**
   * No input in multiple mode reads as one empty id: every held path (other
   * than an empty one) is deleted, and the attribute ends as an empty list
   * when the empty name is not a file.
   */
  lemma MultipleWithoutInput(cfg: FieldConfig, host: Host, current: Attr, model: Model, attribute: string)
    requires "" !in Collect(current)
    requires !host.isFile("")
    ensures var o := FillMultiple(cfg, host, ArityRepaired, None, current, model, attribute);
            o == Outcome(Items([]), RemoveLog(cfg, Collect(current), model, attribute), None) &&
            Deletes(o.effects) == Collect(current)
  {
    var cur := Collect(current);
    SubmittedWithoutInput(host);
    assert Intersect([""], cur) == [] && Diff([""], cur) == [""];
    assert MoveAttempt(cfg, host, "").Err? && MoveAttemptLog(cfg, host, "") == [];
    assert Moved(cfg, host, [""]) == [] && MoveLog(cfg, host, [""]) == [];
    DiffDisjoint(cur, [""]);
    var removed := RemoveLog(cfg, cur, model, attribute);
    assert FillMultiple(cfg, host, ArityRepaired, None, current, model, attribute) ==
           Outcome(Items([]), removed + [], None);
    assert removed + [] == removed;
    RemoveLogProjections(cfg, cur, model, attribute);
  }

  /** No input in multiple mode is submitted as one empty id. */
  lemma SubmittedWithoutInput(host: Host)
    ensures SubmittedPaths(host, None) == Some([""])
  {
    ShortStringIsPlain("", host.encrypter.cipher);
    PlainIdsDecodeToThemselves(host.encrypter, [""]);
    assert Explode("", ',') == [""];
  }

  /**
   * Multiple mode has no `/tmp/` test: one plain id that the record does not
   * hold is tried whenever it exists on the server, whatever its prefix, and
   * kept when the disk acknowledges the write; every held path is removed.
   */
  lemma MultipleMovesAnyNewPath(cfg: FieldConfig, host: Host, id: string, current: Attr,
                                model: Model, attribute: string)
    requires ',' !in id && !Recognised(id, host.encrypter.cipher)
    requires id !in Collect(current)
    ensures var o := FillMultiple(cfg, host, ArityRepaired, Some(id), current, model, attribute);
            o.error == None &&
            o.effects == RemoveLog(cfg, Collect(current), model, attribute) + MoveAttemptLog(cfg, host, id) &&
            o.value == Items(if MoveAttempt(cfg, host, id).Ok? then [MoveAttempt(cfg, host, id).value] else []) &&
            Puts(o.effects) == (if host.isFile(id) then [FullPath(cfg, id)] else [])
  {
    var cur := Collect(current);
    assert SubmittedPaths(host, Some(id)) == Some([id]) by {
      SubmittedPlainIds(host, [id]);
    }
    assert Intersect([id], cur) == [] && Diff([id], cur) == [id];
    DiffDisjoint(cur, [id]);
    assert MoveLog(cfg, host, [id]) == MoveAttemptLog(cfg, host, id) by {
      assert [id][..0] == [];
    }
    assert Moved(cfg, host, [id]) == if MoveAttempt(cfg, host, id).Ok? then [MoveAttempt(cfg, host, id).value] else [] by {
      MovedSnoc(cfg, host, [], id);
      assert [] + [id] == [id];
    }
    assert Puts(RemoveLog(cfg, cur, model, attribute) + MoveAttemptLog(cfg, host, id)) ==
           (if host.isFile(id) then [FullPath(cfg, id)] else []) by {
      RemoveLogProjections(cfg, cur, model, attribute);
      MoveAttemptProjections(cfg, host, id);
      ProjectionsAppend(RemoveLog(cfg, cur, model, attribute), MoveAttemptLog(cfg, host, id));
    }
  }

  // ---------------------------------------------------------------------
  // Both modes

  /** An exception that escapes leaves the attribute and the outside world as they were. */
  lemma ErrorsChangeNothing(cfg: FieldConfig, host: Host, rev: Revision, input: Option<string>,
                            current: Attr, model: Model, attribute: string)
    ensures var o := Fill(cfg, host, rev, input, current, model, attribute);
            o.error.Some? ==> o.value == current && o.effects == []
  {
  }
}
