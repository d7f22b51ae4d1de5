# nova-filepond attachment reconciler in Dafny

This project models the attachment reconciler of the Nova Filepond field (`src/Filepond.php`).
A form submits one server id, or a comma-separated list of them. The reconciler decodes each id into a storage path and compares the result with the path(s) stored on the record. It then:

- deletes the stored files that were dropped, on the configured disk;
- calls the host's `onDelete` callback after each delete;
- moves new files onto the disk, naming them by the `storeAs` callback or by their basename. Single mode moves a decoded path only when it starts with `/tmp/`. Multiple mode tries to move every submitted path the record does not hold yet, whatever its prefix, and a move succeeds when that path exists on the server and the disk acknowledges the write;
- writes the resulting path, or list of paths, back onto the record's attribute.

Modules:

- `PhpString`: the PHP and Laravel string functions the field relies on. These are `rtrim`/`ltrim`/`trim`, the field's `trimSlashes`, `explode`/`implode`, `basename` and `Str::startsWith`.
- `Collections`: Laravel's `Collection::intersect` and `Collection::diff`. Both keep the receiver's order and duplicates. Over a string's characters, `diff` is also `str_replace` of single-character needles by the empty string.
- `ServerId`: `isEncryptedString` (a length and charset heuristic) and `getPathFromServerId`. Laravel's encrypter is an oracle here: the configured cipher name and a `decrypt` that may fail.
- `Filepond`: the data model, pure specification functions (`MoveResult`, `RemoveLog`, `Moved`, `FillSingle`, `FillMultiple`, `Fill`) and three classes.
  - `Model` is the record's attribute.
  - `EffectLog` holds the storage deletes, storage writes and callback calls, in order.
  - `Filepond` holds the configuration fields with their setters, and the imperative `MoveFile`, `RemoveFiles` and `FillAttributeFromRequest`. These methods are proved to change the attribute and the log exactly as the specification functions say.
- `FilepondLaws`: what the reconciler promises, proved over the specification functions.

### Oracles

Storage and the filesystem are the parameter `Host`:

- `isFile(path)`: `new File($path)` succeeds.
- `putAck(disk, path)`: `Storage::disk($disk)->put(...)` returns a truthy value.
- The encrypter.

### Code that differs from its comments

Where the code and its comments differ, the model follows the code:

- When a single-mode move throws, the attribute becomes the uploaded `/tmp/` path (`src/Filepond.php:327`). The comment at `:319-320` says the previous value is kept.
- `decrypt` is not guarded. A submitted id that the heuristic takes for a token, but that does not decrypt, makes the whole save throw (`DecryptException`). The attribute is then left unchanged and nothing is deleted or written.
- `removeFiles` declares three parameters (`:393`), but it is called with one at `:311` and `:351`. Under PHP 7.1 and later this raises `ArgumentCountError` before any file is visited.
  - The parameter `Revision` selects the text: `AsWritten` raises the error at those two calls; `ArityRepaired` passes the model and attribute as the call at `:302` does.
  - As written, every multiple-mode save whose ids decode ends in `ArgumentCountError`. So do single-mode saves that resubmit the `/tmp/` path the record already holds. See "## Findings".
- In single mode, a new `/tmp/` upload replacing a held file never deletes the held file (`:316-331`), although the comment at `:316` describes exactly the case where the record "has a previous file attached". The held file is orphaned on the disk. `FilepondLaws.SingleTmpUpload` proves that no delete is logged.

## Model

| member | source | states |
|---|---|---|
| `PhpString.RTrim` | src/Filepond.php:369 | the result is a prefix of the input and does not end with the trimmed character |
| `PhpString.LTrim` | src/Filepond.php:369 | the result is a suffix of the input and does not start with the trimmed character |
| `PhpString.RTrimDropsOnly` | src/Filepond.php:369 | the input is the `rtrim` result followed by a run of the trimmed character, so nothing else is removed |
| `PhpString.LTrimDropsOnly` | src/Filepond.php:369 | the input is a run of the trimmed character followed by the `ltrim` result, so nothing else is removed |
| `PhpString.Trim` | src/Filepond.php:369 | `trim` leaves the trimmed character at neither end, and the input is the result with a run of that character on either side |
| `PhpString.TrimSlashes` | src/Filepond.php:367-370 | `trimSlashes` returns a string with no leading and no trailing `/`, never longer than its input; the input is the result with a run of `/` on either side, so only edge slashes are removed |
| `PhpString.TrimSlashesAsWritten` | src/Filepond.php:367-370 | the function equals the source's own formula, `trim` applied to the `rtrim` result |
| `PhpString.TrimSlashesFixedPoint` | src/Filepond.php:367-370 | `trimSlashes` leaves a string unchanged if and only if it has no edge `/` |
| `PhpString.TrimSlashesIdempotent` | src/Filepond.php:367-370 | applying `trimSlashes` twice equals applying it once |
| `PhpString.TrimSlashesJoin` | src/Filepond.php:376-382 | trimming `dir/name` built from two trimmed halves keeps the `/` only between two non-empty halves |
| `PhpString.StartsWith` | src/Filepond.php:294 | matches exactly when the needle is non-empty and the string begins with it |
| `PhpString.Explode` | src/Filepond.php:343 | `explode` always yields at least one piece |
| `PhpString.ExplodePieces` | src/Filepond.php:343 | no piece holds the delimiter and none is longer than the input |
| `PhpString.ImplodeExplode` | src/Filepond.php:343 | joining the pieces with the delimiter gives the exploded string back |
| `PhpString.ExplodeWithoutDelimiter` | src/Filepond.php:264 | a string without the delimiter explodes into itself alone |
| `PhpString.ExplodeAfterPiece` | src/Filepond.php:264 | the first piece ends at the first delimiter |
| `PhpString.ExplodeImplode` | src/Filepond.php:343 | joining pieces free of the delimiter and exploding them again gives the pieces back |
| `PhpString.AfterLast` | src/Filepond.php:375 | the last segment is a suffix that holds no separator and is preceded by one unless it is the whole string |
| `PhpString.Basename` | src/Filepond.php:375 | a basename never contains `/` and is the whole last segment of the path once its trailing slashes are dropped: a suffix of it that is all of it or preceded by `/` |
| `Collections.Intersect` | src/Filepond.php:347 | the intersection is no longer than the receiver |
| `Collections.Diff` | src/Filepond.php:348-349 | the difference is no longer than the receiver |
| `Collections.IntersectDiffMembers` | src/Filepond.php:347-349 | `intersect` holds exactly the receiver's items present in the argument, and `diff` exactly those absent from it |
| `Collections.IntersectDiffAppend` | src/Filepond.php:347-349 | both operations work item by item, so the receiver's order is kept |
| `Collections.IntersectDiffPartition` | src/Filepond.php:347-349 | every item, duplicates included, lands in exactly one of the two results |
| `Collections.IntersectDiffCount` | src/Filepond.php:347-349 | each value occurs in a result as often as in the receiver, or not at all |
| `Collections.DiffDisjoint` | src/Filepond.php:264 | removing items none of which occurs leaves the receiver unchanged (so `str_replace` leaves a string without `/`, `_`, `-` alone) |
| `Collections.IntersectWhole` | src/Filepond.php:347-349 | the intersection is the whole receiver, and the difference is empty, if and only if every item is in the argument |
| `ServerId.IsEncryptedString` | src/Filepond.php:257-268 | the heuristic answers `null` exactly for a string under a cipher other than AES-256-CBC, and answers true only for a string under AES-256-CBC |
| `ServerId.GetPathFromServerId` | src/Filepond.php:470-472 | an id comes back as anything but itself (a decrypted path, or a failing `decrypt`) only when the heuristic recognised it |
| `ServerId.DecodePaths` | src/Filepond.php:343-345 | decoding a list of ids gives one path per id |
| `ServerId.DecodePathsPointwise` | src/Filepond.php:343-345 | each id is decoded in place, and the list fails to decode exactly when one id does |
| `ServerId.NonStringIsNoToken` | src/Filepond.php:258-260 | `isEncryptedString` returns false for a non-string |
| `ServerId.OtherCipherAnswersNull` | src/Filepond.php:262-268 | under any cipher other than AES-256-CBC the heuristic falls off the switch with `null`, and the id passes through undecrypted |
| `ServerId.HeadDecides` | src/Filepond.php:264 | only the part before the first `.` decides the heuristic |
| `ServerId.ShortStringIsPlain` | src/Filepond.php:264 | a string of at most 66 characters is never taken for a token |
| `ServerId.LongPlainNameIsDecrypted` | src/Filepond.php:264 | under AES-256-CBC, a string of more than 66 characters without `.`, `/`, `_` or `-` is taken for a token and handed to `decrypt` |
| `ServerId.PlainIdPassesThrough` | src/Filepond.php:470-472 | an id the heuristic does not recognise is returned unchanged, whatever `decrypt` would do |
| `ServerId.TokenRoundTrip` | src/Filepond.php:458-472 | a recognised token comes back as its path provided the encrypter's `decrypt` inverts `encrypt` at that path (an assumption about the oracle) |
| `ServerId.PlainIdsDecodeToThemselves` | src/Filepond.php:343-345 | a list of ids none of which looks like a token decodes to itself |
| `Filepond.Collect` | src/Filepond.php:285 | `collect` of the held attribute is empty exactly for `null` or an empty list, and a single path collects to itself alone |
| `Filepond.FillSingle` | src/Filepond.php:291-338 | in single mode `ArgumentCountError` arises only as written; when nothing escapes, the attribute ends `null` exactly when no id was submitted, and otherwise holds one path |
| `Filepond.FillMultiple` | src/Filepond.php:343-363 | in multiple mode `ArgumentCountError` arises only as written; when nothing escapes, the submission decoded and the attribute is a list no longer than it |
| `Filepond.Moved` | src/Filepond.php:353-361 | the append loop keeps at most one path per upload |
| `Filepond.AppendStep` | src/Filepond.php:353-361 | one more upload adds its move result and its effects after those of the earlier uploads |
| `Filepond.Model.constructor` | src/Filepond.php:285 | the record starts with the given attribute value |
| `Filepond.Filepond.constructor` | src/Filepond.php:30-52 | a new field uses disk `public`, no directory, single mode and no callbacks |
| `Filepond.Filepond.Single` | src/Filepond.php:114-119 | `single()` turns multiple mode off and changes nothing else |
| `Filepond.Filepond.Multiple` | src/Filepond.php:121-126 | `multiple()` turns multiple mode on and changes nothing else |
| `Filepond.Filepond.Disk` | src/Filepond.php:172-178 | `disk()` sets the disk and the directory and changes nothing else |
| `Filepond.Filepond.OnDelete` | src/Filepond.php:186-191 | `onDelete()` sets the delete callback and changes nothing else |
| `Filepond.Filepond.StoreAs` | src/Filepond.php:199-205 | `storeAs()` sets the naming callback and changes nothing else |
| `Filepond.Filepond.MoveFile` | src/Filepond.php:372-388 | `moveFile` issues exactly one write to the configured disk at the full path, and returns `MoveResult` |
| `Filepond.Filepond.RemoveFiles` | src/Filepond.php:393-400 | `removeFiles` appends exactly the removal effects of the files in order and changes nothing else |
| `Filepond.Filepond.TryMove` | src/Filepond.php:323-324 | the guarded move throws without writing when the upload is missing, and otherwise is `moveFile` |
| `Filepond.Filepond.FillAttributeFromRequest` | src/Filepond.php:281-365 | the attribute, the effect log and the escaping exception are those of `Fill`, by mode |
| `Filepond.Filepond.FillSingleFile` | src/Filepond.php:291-338 | the single-mode branch with its early returns ends as `FillSingle` says |
| `Filepond.Filepond.AppendUploads` | src/Filepond.php:353-361 | the loop pushes the moved path of each upload that moves, in order, and logs exactly their writes |
| `Filepond.Filepond.FillMultipleFiles` | src/Filepond.php:343-363 | the multiple-mode branch ends as `FillMultiple` says |
| `FilepondLaws.PathsOfAppend` | src/Filepond.php:393-400 | the paths of one kind of effect in a joined log are the join of the two logs' paths |
| `FilepondLaws.RemovalProjections` | src/Filepond.php:394-399 | removing one file is one delete of it, then one callback for it when one is set, and no write |
| `FilepondLaws.RemoveLogPaths` | src/Filepond.php:393-400 | for each kind of effect, `removeFiles` logs exactly the paths it should: every file deleted, none written, every file called back when a callback is set |
| `FilepondLaws.RemoveLogProjections` | src/Filepond.php:393-400 | `removeFiles` deletes exactly the given files in order, writes nothing, and hands exactly those files to the callback when one is set |
| `FilepondLaws.RemoveLogInterleaving` | src/Filepond.php:393-400 | each file gets its delete on the configured disk, immediately followed by the callback with model, attribute, file and disk; nothing else is logged |
| `FilepondLaws.MovedPathShape` | src/Filepond.php:372-388 | the move succeeds if and only if the write is acknowledged; the returned path is the trimmed directory and name, with the `/` dropped when either is empty; it has no edge slash and never starts with `/tmp/` |
| `FilepondLaws.MovedToBasename` | src/Filepond.php:375-382 | without a directory or `storeAs`, the move stores the upload under its basename when the write is acknowledged and fails otherwise |
| `FilepondLaws.MovedToCallbackName` | src/Filepond.php:375-382 | without a directory and with `storeAs` set, the callback's answer, trimmed, names the stored file when the write is acknowledged; otherwise the move fails |
| `FilepondLaws.MoveAttemptProjections` | src/Filepond.php:322-324 | one guarded move writes the full path when the upload exists, and does nothing else |
| `FilepondLaws.MoveLogProjections` | src/Filepond.php:353-361 | the append loop only writes, at most once per upload, and never deletes or calls back |
| `FilepondLaws.MovedAcknowledged` | src/Filepond.php:353-361 | every path the loop keeps comes from an existing upload whose write was acknowledged, and there are no more of them than writes |
| `FilepondLaws.MovedSnoc` | src/Filepond.php:353-361 | one more upload extends the kept paths by its moved path when its move succeeds, and by nothing otherwise |
| `FilepondLaws.MovedAppend` | src/Filepond.php:353-361 | the loop over two lists of uploads keeps the paths kept over the first followed by those kept over the second |
| `FilepondLaws.MovedComplete` | src/Filepond.php:353-361 | every upload whose move succeeds has its moved path among the kept paths |
| `FilepondLaws.MovedAllSucceed` | src/Filepond.php:353-361 | when every move succeeds, the loop keeps exactly one path per upload, in upload order, each the moved path of that upload |
| `FilepondLaws.SingleWithoutInput` | src/Filepond.php:299-306 | with no input, the effects are exactly `removeFiles` of the held files: each is deleted and then handed to the `onDelete` callback when one is set; there are effects iff there are held files, the attribute ends `null`, and nothing is written |
| `FilepondLaws.SinglePermanentPath` | src/Filepond.php:334-336 | a decoded path outside `/tmp/` is stored as is, with no move, no delete and no error |
| `FilepondLaws.SingleResubmitUnchanged` | src/Filepond.php:334-336 | resubmitting the held non-`/tmp/` path changes nothing |
| `FilepondLaws.TmpMoveOutcome` | src/Filepond.php:322-331 | the single-mode move of a `/tmp/` upload never lets an exception escape; its effects follow the earlier ones; the attribute is the upload's own path iff the move failed, and otherwise the moved path |
| `FilepondLaws.SingleTmpUpload` | src/Filepond.php:317-332 | a new `/tmp/` upload is moved without any delete, even when the record holds another file; the attribute is the upload's own path if and only if the move failed, and otherwise the moved path with exactly one write |
| `FilepondLaws.SingleSameTmpPathAsWritten` | src/Filepond.php:309-311 | as written, resubmitting the held `/tmp/` path throws `ArgumentCountError` with nothing changed |
| `FilepondLaws.SingleSameTmpPathRepaired` | src/Filepond.php:309-332 | with the call repaired, the effects are exactly the removal of the held `/tmp/` file (its delete, then its `onDelete` callback when one is set) followed by the guarded move; the attribute is the moved path when the move succeeds and the `/tmp/` path when it fails |
| `FilepondLaws.SingleDecryptFailure` | src/Filepond.php:293 | `DecryptException` escapes iff the heuristic took the id for a token and `decrypt` failed, and then nothing changes |
| `FilepondLaws.SingleRepairIsLocal` | src/Filepond.php:309-314 | as written and repaired agree on every single-mode save except the resubmitted held `/tmp/` path |
| `FilepondLaws.MultipleAsWrittenFails` | src/Filepond.php:343-351 | as written, every multiple-mode save throws (`DecryptException` or `ArgumentCountError`) with nothing changed |
| `FilepondLaws.MultipleReconcile` | src/Filepond.php:343-363 | repaired: the result is `toKeep` followed by the moved `toAppend` entries, no longer than the submission; exactly `toDelete` is deleted and called back; writes are at most one per `toAppend` entry |
| `FilepondLaws.MultipleDeletesOnlyDropped` | src/Filepond.php:349-351 | a path is deleted iff it was held and not submitted |
| `FilepondLaws.MultipleIdempotent` | src/Filepond.php:347-363 | when submission and held list have the same entries, nothing is deleted or written and the attribute is the submitted list |
| `FilepondLaws.MultipleKeepsSubmittedHeld` | src/Filepond.php:347-363 | submitting exactly the held list keeps it with no effect |
| `FilepondLaws.SubmittedPlainIds` | src/Filepond.php:343-345 | plain comma-free ids joined by commas are submitted as themselves |
| `FilepondLaws.MultipleResubmitStored` | src/Filepond.php:343-363 | saving the form unchanged (the held plain paths comma-joined) keeps the list and does nothing else |
| `FilepondLaws.SubmittedWithoutInput` | src/Filepond.php:343-345 | no input in multiple mode is submitted as one empty id |
| `FilepondLaws.MultipleWithoutInput` | src/Filepond.php:343-363 | no input reads as one empty id: when no held path is empty and no empty-named file exists, every held path is deleted and the attribute ends as an empty list |
| `FilepondLaws.MultipleMovesAnyNewPath` | src/Filepond.php:343-363 | repaired: one plain id the record does not hold is moved whenever it exists on the server and the disk acknowledges the write, whatever its prefix; every held path is deleted and called back, the only write is that file's, and the attribute ends as the moved path or an empty list |
| `FilepondLaws.ErrorsChangeNothing` | src/Filepond.php:281-365 | in both modes, an exception that escapes leaves the attribute unchanged and nothing deleted, written or called back |

## Left out

- The Nova `Field` base class is not modelled, and neither are the `withMeta` builders (`disable`, `fullWidth`, `columns`, `limit`, `maxHeight`, `labels`, `withDoka`/`withoutDoka`, the mime-type builders) or the rule hooks. They are framework configuration that reads the global request and config.
- `jsonSerialize`, `getLabels`, `getThumbnails`, `resolveAttribute` and `guessMimeType` are not modelled: they cover UI serialisation, translation, URL generation and a MIME lookup.
- `getServerIdFromPath` is `encrypt`. It appears only as the `encrypt` argument of `ServerId.TokenRoundTrip`. `decrypt(encrypt(p)) == p` is an assumption about the oracle, never a proved fact.
- The deprecated `removeImages` (`:406-408`) is not modelled. It is never called, and it has the same one-argument `removeFiles` defect.
- `Storage`, `file_get_contents`, `Illuminate\Http\File` and the encrypter are oracles in `Host`. Each is a pure function of its arguments, so two identical calls in one request get the same answer.
  - File contents are not modelled. A write is identified by disk, path and source path.
  - The boolean `Storage::delete` returns is ignored, as in the source.
- Exceptions thrown by `Storage::delete`, `Storage::put`, `file_get_contents` or the `onDelete` callback are not modelled. Only `new File` failing and an unacknowledged write (both caught), a failing `decrypt` and the arity error are.
- The request attribute and the model attribute are taken to be the same name, which is what Nova's default fill passes. The source reads `$model->{$requestAttribute}` and writes `$attribute` at `:325`, `:327` and `:363`.
- PHP type juggling is not modelled:
  - the `storeAs` callback is taken to return a string (it receives the upload's path for the `File` object);
  - the held attribute is `null`, one string or a list of strings;
  - `ServerId.Value` keeps only the string/non-string distinction that `isEncryptedString` makes.
- Strings are sequences of characters, with one character per byte, so `strlen` is the sequence length.
- `explode(',', null)` is taken as `explode(',', '')`, that is, one empty id.
- Under PHP 7.0 a missing argument is a warning, and the call proceeds with `null` parameters. Only PHP 7.1 and later (`AsWritten`) and the repaired call (`ArityRepaired`) are modelled.
- The multiple-mode re-indexing by `values()` is implicit, since sequences have no keys.

## Findings

| source | as written | input that shows it | evidently intended | confidence | as-written member | corrected member |
|---|---|---|---|---|---|---|
| src/Filepond.php:311 | `$this->removeFiles($currentFiles)` passes one argument to a method declared with three (`:393`), raising `ArgumentCountError` | single mode, the record holds `/tmp/a.jpg` and the form submits `/tmp/a.jpg` | pass `$model, $attribute` as the call at `:302` does: delete the held file, then move the upload | high, not executed | `FilepondLaws.SingleSameTmpPathAsWritten` | `FilepondLaws.SingleSameTmpPathRepaired` |
| src/Filepond.php:351 | `$this->removeFiles($toDelete)` passes one argument, so every multiple-mode save throws before deleting or moving anything | multiple mode, any submission whose ids decode, for example `a.jpg` against a record holding `["a.jpg"]` | pass `$model, $attribute`: delete exactly the dropped files, then append the moved uploads | high, not executed | `FilepondLaws.MultipleAsWrittenFails` | `FilepondLaws.MultipleReconcile` |
