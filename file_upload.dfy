/**
 * The upload widget's logic (apps/web/components/file-upload.tsx): the
 * `uploadState` record rewritten by `setUploadState`, the in-flight transfer
 * handle `xhrRef.current`, and the handlers that drive them. A transfer is
 * a number; `live` holds the transfers whose callbacks can still fire (a
 * transfer stops being live when it loads, fails or is aborted). Toasts and
 * rendering are not modelled.
 */
module FileUpload {
  import opened Wrappers
  import opened Text

  /** The `File` a user picks: its name, declared MIME type and size in bytes. */
  datatype FileInfo = FileInfo(name: string, mimeType: string, size: nat)

  /** `uploadState`. */
  datatype UploadState = UploadState(
    file: Option<FileInfo>,
    progress: nat,
    uploading: bool,
    uploadComplete: bool)

  const InitialState: UploadState := UploadState(None, 0, false, false)

  /** `validFileTypes`. */
  const ValidFileTypes: seq<string> := [
    "text/csv",
    "application/vnd.ms-excel",
    "application/vnd.openxmlformats-officedocument.spreadsheetml.sheet"
  ]

  /** `MAX_SIZE`: 10 MiB. */
  const MaxSize: nat := 10 * 1024 * 1024

  /** The form field the file is posted under. */
  const FormField: string := "file"

  /** A request `uploadToServer` sends: which transfer, where, and under which form field. */
  datatype Post = Post(transfer: nat, url: string, field: string, file: FileInfo)

  /** What `xhr.onload` sees: the status and the parsed body (None when `JSON.parse` throws). */
  datatype ServerReply = ServerReply(status: int, json: Option<string>)

  /**
   * The checks `handleFile` applies before accepting a file: a CSV, XLS or
   * XLSX MIME type, and at most 10 MiB.
   */
  function Selectable(f: FileInfo): (ok: bool)
    ensures ok <==> f.size <= 10485760 && f.mimeType in {"text/csv", "application/vnd.ms-excel",
      "application/vnd.openxmlformats-officedocument.spreadsheetml.sheet"}
  {
    f.mimeType in ValidFileTypes && !(f.size > MaxSize)
  }

  /** The size check is strict: exactly 10 MiB is still accepted. */
  lemma SizeBoundary(name: string)
    ensures Selectable(FileInfo(name, "text/csv", 10485760))
    ensures !Selectable(FileInfo(name, "text/csv", 10485761))
  {
  }

  /**
   * `Math.round((loaded / total) * 100)` in exact arithmetic: the integer
   * nearest to 100 * loaded / total, halves rounded up.
   */
  function RoundPercent(loaded: nat, total: nat): (p: nat)
    requires total > 0
    ensures 2 * total * p <= 200 * loaded + total < 2 * total * (p + 1)
  {
    var p := (200 * loaded + total) / (2 * total);
    assert (200 * loaded + total) == 2 * total * p + (200 * loaded + total) % (2 * total);
    p
  }

  /** A progress figure never exceeds 100 while no more than the total was sent. */
  lemma RoundPercentAtMost100(loaded: nat, total: nat)
    requires 0 < total && loaded <= total
    ensures RoundPercent(loaded, total) <= 100
    ensures loaded == total ==> RoundPercent(loaded, total) == 100
  {
    var p := RoundPercent(loaded, total);
    var d := 2 * total;
    assert d * p <= 201 * total;
    if p >= 101 {
      MulMonotone(d, 101, p);
      assert false;
    }
    if loaded == total && p < 100 {
      MulMonotone(d, p + 1, 100);
      assert false;
    }
  }

  lemma MulMonotone(a: nat, b: nat, c: nat)
    requires b <= c
    ensures a * b <= a * c
  {
  }

  /** `${apiBaseUrl.replace(/\/$/, "")}/upload`: one trailing slash is dropped. */
  function UploadUrl(apiBaseUrl: string): (url: string)
    ensures EndsWith(url, "/upload")
  {
    (if EndsWith(apiBaseUrl, "/") then apiBaseUrl[..|apiBaseUrl| - 1] else apiBaseUrl) + "/upload"
  }

  /** A base with or without its trailing slash gives the same endpoint. */
  lemma UploadUrlIgnoresTrailingSlash(base: string)
    ensures UploadUrl(base + "/") == base + "/upload"
    ensures !EndsWith(base, "/") ==> UploadUrl(base) == UploadUrl(base + "/")
  {
    assert (base + "/")[..|base|] == base;
  }

  /** The `FileUpload` component: its state, its transfer handle and its handlers. */
  class Uploader {
    const apiBaseUrl: string
    /** Whether the `onUploadComplete` prop was given. */
    const notifyOnComplete: bool

    var state: UploadState
    /** `xhrRef.current`. */
    var xhr: Option<nat>
    /** The transfers whose callbacks can still fire. */
    var live: set<nat>
    var nextTransfer: nat
    /** Every request sent, in order. */
    var posted: seq<Post>
    /** The arguments `onUploadComplete` was called with, in order. */
    var delivered: seq<string>

    /**
     * Never uploading and complete at once; the handle, if any, is a live
     * transfer; an upload in progress has a file.
     */
    ghost predicate Valid()
      reads this
    {
      && !(state.uploading && state.uploadComplete)
      && (state.uploading ==> state.file.Some?)
      && (xhr.Some? ==> xhr.value in live)
      && (forall t :: t in live ==> t < nextTransfer)
      && |posted| == nextTransfer
    }

    constructor (apiBaseUrl: string, notifyOnComplete: bool)
      ensures Valid()
      ensures this.apiBaseUrl == apiBaseUrl && this.notifyOnComplete == notifyOnComplete
      ensures state == InitialState && xhr.None? && live == {} && posted == [] && delivered == []
    {
      this.apiBaseUrl := apiBaseUrl;
      this.notifyOnComplete := notifyOnComplete;
      state := InitialState;
      xhr := None;
      live := {};
      nextTransfer := 0;
      posted := [];
      delivered := [];
    }

    /**
     * `handleFile(file)`: a missing, wrongly typed or oversized file changes
     * nothing; otherwise the state starts afresh with that file. An
     * in-flight transfer is neither aborted nor forgotten.
     */
    method HandleFile(f: Option<FileInfo>)
      requires Valid()
      modifies this`state
      ensures Valid()
      ensures f.Some? && Selectable(f.value) ==> state == UploadState(f, 0, false, false)
      ensures !(f.Some? && Selectable(f.value)) ==> state == old(state)
    {
      if f.None? {
        return;
      }
      if f.value.mimeType !in ValidFileTypes {
        return;
      }
      if f.value.size > MaxSize {
        return;
      }
      state := UploadState(f, 0, false, false);
    }

    /** `uploadToServer(file)`: opens a new transfer, records it as the handle and posts the file under "file". */
    method UploadToServer(f: FileInfo)
      requires Valid()
      modifies this`xhr, this`live, this`nextTransfer, this`posted
      ensures xhr == Some(old(nextTransfer)) && nextTransfer == old(nextTransfer) + 1
      ensures live == old(live) + {old(nextTransfer)}
      ensures posted == old(posted) + [Post(old(nextTransfer), UploadUrl(apiBaseUrl), FormField, f)]
      ensures Valid()
    {
      var t := nextTransfer;
      nextTransfer := nextTransfer + 1;
      xhr := Some(t);
      live := live + {t};
      posted := posted + [Post(t, UploadUrl(apiBaseUrl), FormField, f)];
    }

    /**
     * `handleUpload()`: does nothing without a file or while uploading or
     * complete; otherwise marks the upload as started and starts one transfer.
     */
    method HandleUpload()
      requires Valid()
      modifies this
      ensures Valid()
      ensures delivered == old(delivered)
      ensures old(state.file.None? || state.uploading || state.uploadComplete) ==>
        state == old(state) && xhr == old(xhr) && live == old(live)
        && nextTransfer == old(nextTransfer) && posted == old(posted)
      ensures old(state.file.Some? && !state.uploading && !state.uploadComplete) ==>
        && state == old(state).(uploading := true, progress := 0)
        && xhr == Some(old(nextTransfer)) && live == old(live) + {old(nextTransfer)}
        && nextTransfer == old(nextTransfer) + 1
        && posted == old(posted) + [Post(old(nextTransfer), UploadUrl(apiBaseUrl), FormField, old(state.file.value))]
    {
      if state.file.None? || state.uploading || state.uploadComplete {
        return;
      }
      state := state.(uploading := true, progress := 0);
      UploadToServer(state.file.value);
    }

    /** `xhr.upload.onprogress` of transfer `t`: only a length-computable event of a live transfer moves the bar. */
    method OnProgress(t: nat, lengthComputable: bool, loaded: nat, total: nat)
      requires Valid()
      modifies this`state
      ensures Valid()
      ensures t in live && lengthComputable && total > 0 ==>
        state == old(state).(progress := RoundPercent(loaded, total))
      ensures !(t in live && lengthComputable && total > 0) ==> state == old(state)
    {
      if t in live && lengthComputable && total > 0 {
        var percent := RoundPercent(loaded, total);
        state := state.(progress := percent);
      }
    }

    /**
     * `xhr.onload` of transfer `t`: the handle is cleared (whichever transfer
     * it held). A 2xx reply completes the upload and hands the parsed body
     * to `onUploadComplete`; if the body does not parse, the state is left
     * as it was. Any other status resets progress and both flags.
     */
    method OnLoad(t: nat, reply: ServerReply)
      requires Valid()
      modifies this`state, this`xhr, this`live, this`delivered
      ensures Valid()
      ensures t !in old(live) ==>
        state == old(state) && xhr == old(xhr) && live == old(live) && delivered == old(delivered)
      ensures t in old(live) ==> xhr.None? && live == old(live) - {t}
      ensures t in old(live) && 200 <= reply.status < 300 && reply.json.Some? ==>
        && state == old(state).(progress := 100, uploading := false, uploadComplete := true)
        && delivered == old(delivered) + (if notifyOnComplete then [reply.json.value] else [])
      ensures t in old(live) && 200 <= reply.status < 300 && reply.json.None? ==>
        state == old(state) && delivered == old(delivered)
      ensures t in old(live) && !(200 <= reply.status < 300) ==>
        state == old(state).(progress := 0, uploading := false, uploadComplete := false)
        && delivered == old(delivered)
    {
      if t !in live {
        return;
      }
      live := live - {t};
      xhr := None;
      if 200 <= reply.status < 300 {
        if reply.json.None? {
          return;
        }
        state := state.(progress := 100, uploading := false, uploadComplete := true);
        if notifyOnComplete {
          delivered := delivered + [reply.json.value];
        }
      } else {
        state := state.(progress := 0, uploading := false, uploadComplete := false);
      }
    }

    /** `xhr.onerror` of transfer `t`: the handle is cleared and the upload marked as not started. */
    method OnError(t: nat)
      requires Valid()
      modifies this`state, this`xhr, this`live
      ensures Valid()
      ensures t !in old(live) ==> state == old(state) && xhr == old(xhr) && live == old(live)
      ensures t in old(live) ==>
        && state == old(state).(progress := 0, uploading := false, uploadComplete := false)
        && xhr.None? && live == old(live) - {t}
    {
      if t !in live {
        return;
      }
      live := live - {t};
      xhr := None;
      state := state.(progress := 0, uploading := false, uploadComplete := false);
    }

    /**
     * `resetFile()`: aborts the transfer in the handle, so none of its
     * callbacks fires afterwards, and restores the initial state.
     */
    method ResetFile()
      requires Valid()
      modifies this`state, this`xhr, this`live
      ensures Valid()
      ensures state == InitialState && xhr.None?
      ensures old(xhr).Some? ==> live == old(live) - {old(xhr).value}
      ensures old(xhr).None? ==> live == old(live)
    {
      if xhr.Some? {
        live := live - {xhr.value};
        xhr := None;
      }
      state := InitialState;
    }
  }
}
