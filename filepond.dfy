/**
 * The Filepond field's attachment reconciler: on save it compares the paths
 * stored on the record with the server ids submitted by the form, deletes the
 * files that were dropped, moves new files onto the disk, and writes the
 * resulting path(s) back onto the record's attribute. Single mode moves a
 * decoded path only when it starts with `/tmp/`; multiple mode tries to move
 * every submitted path the record does not hold yet, whatever its prefix,
 * and keeps it when it exists on the server and the disk acknowledges the
 * write.
 *
 * Storage, the filesystem and the encrypter are oracles (`Host`). What the
 * field does to the outside world (storage deletes and writes, calls of the
 * host's `onDelete` callback) is appended, in order, to an `EffectLog`.
 *
 * Every imperative method is proved against a pure function of the same
 * inputs (`MoveResult`, `RemoveLog`, `Fill`, ...); the properties of those
 * functions are proved in `FilepondLaws`.
 */
module Filepond {
  import opened Wrappers
  import opened PhpString
  import opened Collections
  import opened ServerId

  /** Uploads that have not been moved yet live under this prefix. */
  const TmpPrefix: string := "/tmp/"

  /** The field's default storage disk. */
  const DefaultDisk: string := "public"

  /** The value of the record's attribute: `null`, one path, or a list of paths. */
  datatype Attr = Null | Scalar(path: string) | Items(paths: seq<string>)

  /** `collect($model->{$attribute})`: `null` gives no items, a string one. */
  function Collect(a: Attr): (r: seq<string>)
    ensures r == [] <==> a == Null || a == Items([])
    ensures a.Scalar? ==> r == [a.path]
  {
    match a
    case Null => []
    case Scalar(p) => [p]
    case Items(ps) => ps
  }

  /** Exceptions that escape `fillAttributeFromRequest`. */
  datatype Error =
    | DecryptException      // `decrypt` rejected something the heuristic took for a token
    | ArgumentCountError    // `removeFiles` called with one argument where it declares three

  /** Exceptions raised inside the guarded move (`new File`, `moveFile`). */
  datatype MoveError = FileNotFound | UploadFailed

  /** A host-supplied callable, known here only by name. */
  type CallableId = string

  /** What the field does to the outside world, in the order it does it. */
  datatype Effect =
    | StorageDelete(disk: string, path: string)
    | OnDeleteCall(callback: CallableId, model: Model, attribute: string, path: string, disk: string)
    | StoragePut(disk: string, path: string, source: string)

  /** The collaborators the field cannot see into. */
  datatype Host = Host(
    encrypter: Encrypter,
    isFile: string -> bool,               // `new File($path)` succeeds
    putAck: (string, string) -> bool)     // `Storage::disk($disk)->put($path, ...)` acknowledges

  /** The field's configuration, as set by its builder methods. */
  datatype FieldConfig = FieldConfig(
    disk: string,
    directory: Option<string>,
    multiple: bool,
    storeAs: Option<string -> string>,
    onDelete: Option<CallableId>)

  /**
   * Which text of the two one-argument `removeFiles` calls is modelled:
   * `AsWritten` raises `ArgumentCountError` there; `ArityRepaired` passes the
   * model and the attribute as the three-argument call does.
   */
  datatype Revision = AsWritten | ArityRepaired

  /** The attribute's final value, the effects in order, and the exception that escaped, if any. */
  datatype Outcome = Outcome(value: Attr, effects: seq<Effect>, error: Option<Error>)

  // ---------------------------------------------------------------------
  // Specification functions

  /** The stored file's name: the `storeAs` callback's answer, or the upload's basename. */
  function FileName(cfg: FieldConfig, file: string): string {
    match cfg.storeAs
    case Some(name) => name(file)
    case None => Basename(file)
  }

  /** The path `moveFile` writes to: trimmed directory, `/`, trimmed name. */
  function FullPath(cfg: FieldConfig, file: string): string {
    TrimSlashes(cfg.directory.GetOr("")) + "/" + TrimSlashes(FileName(cfg, file))
  }

  /** `moveFile`: the trimmed path once the write is acknowledged, otherwise "Failed to upload file.". */
  function MoveResult(cfg: FieldConfig, host: Host, file: string): Result<string, MoveError> {
    var fullPath := FullPath(cfg, file);
    if host.putAck(cfg.disk, fullPath) then Ok(TrimSlashes(fullPath)) else Err(UploadFailed)
  }

  /** The guarded move: `new File($path)` first, then `moveFile`. */
  function MoveAttempt(cfg: FieldConfig, host: Host, file: string): Result<string, MoveError> {
    if host.isFile(file) then MoveResult(cfg, host, file) else Err(FileNotFound)
  }

  /** The effects of the guarded move: one write, when the upload exists. */
  function MoveAttemptLog(cfg: FieldConfig, host: Host, file: string): seq<Effect> {
    if host.isFile(file) then [StoragePut(cfg.disk, FullPath(cfg, file), file)] else []
  }

  /** The effects of removing one file: the delete, then the callback if one is set. */
  function Removal(cfg: FieldConfig, file: string, model: Model, attribute: string): seq<Effect> {
    [StorageDelete(cfg.disk, file)] +
    match cfg.onDelete
    case Some(callback) => [OnDeleteCall(callback, model, attribute, file, cfg.disk)]
    case None => []
  }

  /** The effects of `removeFiles`, file after file. */
  function RemoveLog(cfg: FieldConfig, files: seq<string>, model: Model, attribute: string): seq<Effect>
    decreases |files|
  {
    if files == [] then []
    else RemoveLog(cfg, files[..|files| - 1], model, attribute) + Removal(cfg, files[|files| - 1], model, attribute)
  }

  /** The paths the append loop pushes: one per upload whose move succeeded, in order. */
  function Moved(cfg: FieldConfig, host: Host, uploads: seq<string>): (r: seq<string>)
    ensures |r| <= |uploads|
    decreases |uploads|
  {
    if uploads == [] then []
    else
      var last := uploads[|uploads| - 1];
      Moved(cfg, host, uploads[..|uploads| - 1]) +
      match MoveAttempt(cfg, host, last)
      case Ok(saved) => [saved]
      case Err(_) => []
  }

  /** The effects of the append loop. */
  function MoveLog(cfg: FieldConfig, host: Host, uploads: seq<string>): seq<Effect>
    decreases |uploads|
  {
    if uploads == [] then []
    else MoveLog(cfg, host, uploads[..|uploads| - 1]) + MoveAttemptLog(cfg, host, uploads[|uploads| - 1])
  }

  /** One more upload: its move result and its effects come after those of the earlier ones. */
  lemma AppendStep(cfg: FieldConfig, host: Host, uploads: seq<string>, i: nat)
    requires i < |uploads|
    ensures Moved(cfg, host, uploads[..i + 1]) == Moved(cfg, host, uploads[..i]) +
            match MoveAttempt(cfg, host, uploads[i]) case Ok(saved) => [saved] case Err(_) => []
    ensures MoveLog(cfg, host, uploads[..i + 1]) == MoveLog(cfg, host, uploads[..i]) + MoveAttemptLog(cfg, host, uploads[i])
  {
    assert uploads[..i + 1][..i] == uploads[..i];
  }

  /** The single-mode move of a `/tmp/` upload: the saved path, or the upload's own path when the move throws. */
  function TmpMove(cfg: FieldConfig, host: Host, uploaded: string, before: seq<Effect>): Outcome {
    var value := match MoveAttempt(cfg, host, uploaded)
      case Ok(saved) => Scalar(saved)
      case Err(_) => Scalar(uploaded);
    Outcome(value, before + MoveAttemptLog(cfg, host, uploaded), None)
  }

  /** `fillAttributeFromRequest` with `multiple === false`. */
  function FillSingle(cfg: FieldConfig, host: Host, rev: Revision, input: Option<string>,
                      current: Attr, model: Model, attribute: string): (o: Outcome)
    ensures o.error == Some(ArgumentCountError) ==> rev == AsWritten
    ensures o.error.None? ==> (o.value == Null <==> input.None?) && (input.Some? ==> o.value.Scalar?)
  {
    match input
    case None =>
      Outcome(Null, if current != Null then RemoveLog(cfg, Collect(current), model, attribute) else [], None)
    case Some(serverId) =>
      match GetPathFromServerId(host.encrypter, serverId)
      case None => Outcome(current, [], Some(DecryptException))
      case Some(uploaded) =>
        var isTmp := StartsWith(uploaded, TmpPrefix);
        if isTmp && current == Scalar(uploaded) then
          if rev == AsWritten then Outcome(current, [], Some(ArgumentCountError))
          else TmpMove(cfg, host, uploaded, RemoveLog(cfg, Collect(current), model, attribute))
        else if isTmp then TmpMove(cfg, host, uploaded, [])
        else Outcome(Scalar(uploaded), [], None)
  }

  /** The paths submitted in multiple mode: the comma-separated ids, each decoded. */
  function SubmittedPaths(host: Host, input: Option<string>): Option<seq<string>> {
    DecodePaths(host.encrypter, Explode(input.GetOr(""), ','))
  }

  /** `fillAttributeFromRequest` with `multiple === true`. */
  function FillMultiple(cfg: FieldConfig, host: Host, rev: Revision, input: Option<string>,
                        current: Attr, model: Model, attribute: string): (o: Outcome)
    ensures o.error == Some(ArgumentCountError) ==> rev == AsWritten
    ensures o.error.None? ==> SubmittedPaths(host, input).Some? && o.value.Items? &&
                              |o.value.paths| <= |SubmittedPaths(host, input).value|
  {
    match SubmittedPaths(host, input)
    case None => Outcome(current, [], Some(DecryptException))
    case Some(files) =>
      if rev == AsWritten then Outcome(current, [], Some(ArgumentCountError))
      else
        var currentFiles := Collect(current);
        var toAppend := Diff(files, currentFiles);
        IntersectDiffPartition(files, currentFiles);
        Outcome(Items(Intersect(files, currentFiles) + Moved(cfg, host, toAppend)),
                RemoveLog(cfg, Diff(currentFiles, files), model, attribute) + MoveLog(cfg, host, toAppend),
                None)
  }

  /** `fillAttributeFromRequest`. */
  function Fill(cfg: FieldConfig, host: Host, rev: Revision, input: Option<string>,
                current: Attr, model: Model, attribute: string): Outcome
  {
    if cfg.multiple then FillMultiple(cfg, host, rev, input, current, model, attribute)
    else FillSingle(cfg, host, rev, input, current, model, attribute)
  }

  // ---------------------------------------------------------------------
  // The mutable objects

  /** The record being saved, reduced to the one attribute the field fills. */
  class Model {
    var value: Attr

    constructor (value: Attr)
      ensures this.value == value
    {
      this.value := value;
    }
  }

  /** The effects of one request, in order. */
  class EffectLog {
    var log: seq<Effect>

    constructor ()
      ensures log == []
    {
      log := [];
    }
  }

  /** The field object with its configuration and its save logic. */
  class Filepond {
    var disk: string
    var directory: Option<string>
    var multiple: bool
    var storeAsCallback: Option<string -> string>
    var onDeleteCallback: Option<CallableId>

    function Config(): FieldConfig
      reads this
    {
      FieldConfig(disk, directory, multiple, storeAsCallback, onDeleteCallback)
    }

    constructor ()
      ensures Config() == FieldConfig(DefaultDisk, None, false, None, None)
    {
      disk := DefaultDisk;
      directory := None;
      multiple := false;
      storeAsCallback := None;
      onDeleteCallback := None;
    }

    method Single()
      modifies this`multiple
      ensures !multiple
    {
      multiple := false;
    }

    method Multiple()
      modifies this`multiple
      ensures multiple
    {
      multiple := true;
    }

    method Disk(disk: string, directory: Option<string>)
      modifies this`disk, this`directory
      ensures this.disk == disk && this.directory == directory
    {
      this.disk := disk;
      this.directory := directory;
    }

    method OnDelete(callback: CallableId)
      modifies this`onDeleteCallback
      ensures onDeleteCallback == Some(callback)
    {
      onDeleteCallback := Some(callback);
    }

    method StoreAs(callback: string -> string)
      modifies this`storeAsCallback
      ensures storeAsCallback == Some(callback)
    {
      storeAsCallback := Some(callback);
    }

    /** `moveFile`: names the file, writes it to the disk, and fails unless the write is acknowledged. */
    method MoveFile(host: Host, file: string, fx: EffectLog) returns (saved: Result<string, MoveError>)
      modifies fx
      ensures fx.log == old(fx.log) + [StoragePut(disk, FullPath(Config(), file), file)]
      ensures saved == MoveResult(Config(), host, file)
    {
      var name := match storeAsCallback
        case Some(callback) => callback(file)
        case None => Basename(file);
      var fullPath := TrimSlashes(directory.GetOr("")) + "/" + TrimSlashes(name);
      assert fullPath == FullPath(Config(), file);
      var response := host.putAck(disk, fullPath);
      saved := if response then Ok(TrimSlashes(fullPath)) else Err(UploadFailed);
      fx.log := fx.log + [StoragePut(disk, fullPath, file)];
    }

    /** `removeFiles`: for each file in order, a delete on the disk and then the callback. */
    method RemoveFiles(files: seq<string>, model: Model, attribute: string, fx: EffectLog)
      modifies fx
      ensures fx.log == old(fx.log) + RemoveLog(Config(), files, model, attribute)
    {
      for i := 0 to |files|
        invariant fx.log == old(fx.log) + RemoveLog(Config(), files[..i], model, attribute)
      {
        var image := files[i];
        fx.log := fx.log + [StorageDelete(disk, image)];
        if onDeleteCallback.Some? {
          fx.log := fx.log + [OnDeleteCall(onDeleteCallback.value, model, attribute, image, disk)];
        }
        assert files[..i + 1][..i] == files[..i];
      }
      assert files[..|files|] == files;
    }

    /** The guarded move of one upload: `new File($path)` and `moveFile` inside one `try`. */
    method TryMove(host: Host, uploadedFile: string, fx: EffectLog) returns (saved: Result<string, MoveError>)
      modifies fx
      ensures fx.log == old(fx.log) + MoveAttemptLog(Config(), host, uploadedFile)
      ensures saved == MoveAttempt(Config(), host, uploadedFile)
    {
      if !host.isFile(uploadedFile) {
        return Err(FileNotFound);
      }
      saved := MoveFile(host, uploadedFile, fx);
    }

    /**
     * `fillAttributeFromRequest`: reconciles the record's attribute with the
     * submitted server id(s). Returns the exception that escapes, if any.
     */
    method FillAttributeFromRequest(host: Host, rev: Revision, input: Option<string>,
                                    model: Model, attribute: string, fx: EffectLog)
      returns (error: Option<Error>)
      modifies model, fx
      ensures var o := Fill(Config(), host, rev, input, old(model.value), model, attribute);
              model.value == o.value && fx.log == old(fx.log) + o.effects && error == o.error
    {
      if !multiple {
        error := FillSingleFile(host, rev, input, model, attribute, fx);
      } else {
        error := FillMultipleFiles(host, rev, input, model, attribute, fx);
      }
    }

    /** The single-file branch of `fillAttributeFromRequest`, with its early returns. */
    method FillSingleFile(host: Host, rev: Revision, input: Option<string>,
                          model: Model, attribute: string, fx: EffectLog)
      returns (error: Option<Error>)
      modifies model, fx
      ensures var o := FillSingle(Config(), host, rev, input, old(model.value), model, attribute);
              model.value == o.value && fx.log == old(fx.log) + o.effects && error == o.error
    {
      var currentFiles := Collect(model.value);
      var modelHasFiles := model.value != Null;
      ghost var spec := FillSingle(Config(), host, rev, input, model.value, model, attribute);

      if input.None? {
        if modelHasFiles {
          RemoveFiles(currentFiles, model, attribute, fx);
        } else {
          assert old(fx.log) + [] == old(fx.log);
        }
        model.value := Null;
        return None;
      }
      var decoded := GetPathFromServerId(host.encrypter, input.value);
      if decoded.None? {
        return Some(DecryptException);
      }
      var uploadedFile := decoded.value;
      var uploadedFileIsTmp := StartsWith(uploadedFile, TmpPrefix);

      ghost var removed: seq<Effect> := [];
      assert old(fx.log) + removed == old(fx.log);
      if uploadedFileIsTmp && model.value == Scalar(uploadedFile) {
        if rev == AsWritten {
          return Some(ArgumentCountError);
        }
        RemoveFiles(currentFiles, model, attribute, fx);
        removed := RemoveLog(Config(), currentFiles, model, attribute);
        model.value := Null;
      }

      assert fx.log == old(fx.log) + removed;
      if uploadedFileIsTmp && model.value != Scalar(uploadedFile) {
        assert spec == TmpMove(Config(), host, uploadedFile, removed);
        var saved := TryMove(host, uploadedFile, fx);
        ConcatAssoc(old(fx.log), removed, MoveAttemptLog(Config(), host, uploadedFile));
        if saved.Ok? {
          model.value := Scalar(saved.value);
        } else {
          model.value := Scalar(uploadedFile);
        }
        return None;
      }

      assert spec == Outcome(Scalar(uploadedFile), [], None);
      model.value := Scalar(uploadedFile);
      return None;
    }

    /** The `foreach ($toAppend ...)` loop: pushes each upload that moves, skips each that throws. */
    method AppendUploads(host: Host, toKeep: seq<string>, toAppend: seq<string>, fx: EffectLog)
      returns (kept: seq<string>)
      modifies fx
      ensures kept == toKeep + Moved(Config(), host, toAppend)
      ensures fx.log == old(fx.log) + MoveLog(Config(), host, toAppend)
    {
      ghost var cfg := Config();
      kept := toKeep;
      var i := 0;
      while i < |toAppend|
        invariant 0 <= i <= |toAppend|
        invariant kept == toKeep + Moved(cfg, host, toAppend[..i])
        invariant fx.log == old(fx.log) + MoveLog(cfg, host, toAppend[..i])
      {
        var uploadedFile := toAppend[i];
        ghost var before := fx.log;
        var saved := TryMove(host, uploadedFile, fx);
        assert saved == MoveAttempt(cfg, host, uploadedFile);
        assert fx.log == before + MoveAttemptLog(cfg, host, uploadedFile);
        AppendStep(cfg, host, toAppend, i);
        ConcatAssoc(old(fx.log), MoveLog(cfg, host, toAppend[..i]), MoveAttemptLog(cfg, host, uploadedFile));
        if saved.Ok? {
          ConcatAssoc(toKeep, Moved(cfg, host, toAppend[..i]), [saved.value]);
          kept := kept + [saved.value];
        }
        i := i + 1;
      }
      assert toAppend[..i] == toAppend;
    }

    /** The multiple-files branch of `fillAttributeFromRequest`: the three collections, the removal, the append loop. */
    method FillMultipleFiles(host: Host, rev: Revision, input: Option<string>,
                             model: Model, attribute: string, fx: EffectLog)
      returns (error: Option<Error>)
      modifies model, fx
      ensures var o := FillMultiple(Config(), host, rev, input, old(model.value), model, attribute);
              model.value == o.value && fx.log == old(fx.log) + o.effects && error == o.error
    {
      var currentFiles := Collect(model.value);
      var decodedFiles := SubmittedPaths(host, input);
      if decodedFiles.None? {
        return Some(DecryptException);
      }
      var files := decodedFiles.value;
      var toKeep := Intersect(files, currentFiles);
      var toAppend := Diff(files, currentFiles);
      var toDelete := Diff(currentFiles, files);

      if rev == AsWritten {
        return Some(ArgumentCountError);
      }
      RemoveFiles(toDelete, model, attribute, fx);
      ghost var removed := RemoveLog(Config(), toDelete, model, attribute);
      ghost var logAfterRemoval := fx.log;
      assert logAfterRemoval == old(fx.log) + removed;

      toKeep := AppendUploads(host, toKeep, toAppend, fx);
      ghost var appended := MoveLog(Config(), host, toAppend);
      ConcatAssoc(old(fx.log), removed, appended);
      model.value := Items(toKeep);
      return None;
    }
  }
}
