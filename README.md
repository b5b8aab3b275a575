# Download engine of Cultured-Downloader-CLI, modelled in Dafny

This project models the request and download core of the downloader
(`src/request/request.go`):

- **Dispatcher** — `CallRequest`: builds one HTTP request, attaches every cookie
  whose `Domain` is a substring of the URL, adds the caller's headers and a fixed
  `User-Agent`, appends query parameters to the URL's own query when any are
  given, and sends the request up to `RETRY_COUNTER` times until an attempt has no
  transport error and (when status checking is on) status 200.
- **Downloader** — `DownloadURL`: calls `CallRequest` with status checking,
  resolves the destination (a path without extension is a directory and the file
  name comes from the final response URL; a path with an extension is the file,
  with its extension lower-cased), skips an existing non-empty file, otherwise
  creates the file and copies the body into it, and removes the file again when
  the copy fails.
- **Coordinator** — `DownloadURLsParallel`: clamps the concurrency to the number
  of jobs, takes a slot of a bounded channel before each job, and after each
  download adds one progress tick and frees the slot.

The network is abstract. An `Environment` says whether `http.NewRequest` fails,
what the URL's own query parses to, and what each `client.Do` yields: a transport
error or a response (status, final URL, body). The disk is a map from paths to
byte sequences; whether `os.Create` or `io.Copy` fails is an input. A Go panic is
a result of its own (`Panicked`). The goroutines of the coordinator become a
scheduler loop. At each step either the main loop starts the next job (when a
slot is free) or a running job finishes. Which of the two happens is the input
`schedule`, and which running job finishes is an arbitrary choice. The helpers
`utils.RemoveExtFromFilename`, `utils.GetLastPartOfURL` and `url.PathUnescape` are
uninterpreted: they are function-valued fields of `PathHelpers`, and the unescape
returns an `Option`. `filepath.Ext`, `filepath.Join`, `strings.Contains` and
`strings.ToLower` are given definitions (modules `GoFilepath`, `GoStrings`).

Modules: `Wrappers` (Option), `GoStrings`, `GoFilepath`, `Dispatcher`,
`Downloader`, `Coordinator`, one file each.

Where the code does not behave as one would expect from a downloader of this kind, the model follows the code:

- One request is built and reused for every attempt. It is not rebuilt per attempt.
- Query parameters are added with `Values.Add`. A key already in the URL keeps its
  values and gets the new one appended; nothing is overwritten.
- When every attempt fails, `CallRequest` returns `(nil, nil)`, not the last
  transport error, because `resp, err :=` at line 55 declares a new `err`.
- `DownloadURL` sends the request before it checks whether the destination already
  holds a non-empty file. The skip saves the write, not the network request.
- A caller-supplied `User-Agent` header is kept, and the fixed one is appended
  after it (`Header.Add`).

## Model

| member | source | states |
|---|---|---|
| `GoStrings.ContainsIffOccurs` | src/request/request.go:29 | `strings.Contains(url, domain)` holds exactly when the domain occurs at some index of the URL |
| `GoFilepath.Ext` | src/request/request.go:85 | `filepath.Ext` is empty or an extension (a '.' with no later '.' or '/') and is a suffix of the path |
| `GoFilepath.EmptyExtMeansNoDot` | src/request/request.go:85 | an empty extension means every '.' of the path is followed by a later '/': such a path is taken as a directory |
| `GoStrings.ToLower` | src/request/request.go:93-98 | lower-casing keeps the length and maps each character by ASCII lower-casing |
| `GoStrings.LowerCaseResult` | src/request/request.go:93-98 | lower-cased text has no ASCII capital, keeps every other character, and lower-casing it again changes nothing |
| `GoFilepath.ExtOfAppendedExtension` | src/request/request.go:97-98 | whatever precedes it, an appended extension is the extension of the result |
| `GoFilepath.ExtAfterSeparator` | src/request/request.go:93 | the extension of `a/n` is the extension of `n` |
| `GoFilepath.LowerExtension` | src/request/request.go:93 | lower-casing an extension leaves an extension |
| `GoFilepath.TrimTrailingSlashes` | src/request/request.go:93 | the directory part used by Join is the directory with its trailing '/' removed and nothing else: a prefix, followed in the directory only by '/', and not ending in '/' |
| `GoFilepath.Join` | src/request/request.go:93 | an empty directory gives the name and an empty name the directory; otherwise the name comes last, after one '/', preceded by the directory without its trailing '/' |
| `GoFilepath.ExtOfJoin` | src/request/request.go:93 | joining a non-empty file name onto a directory keeps the file name's extension |
| `Dispatcher.AddValue` | src/request/request.go:36 | `Header.Add`/`Values.Add` append the value under its key and leave every other key as it was |
| `Dispatcher.MatchingCookies` | src/request/request.go:28-32 | a cookie is attached exactly when its Domain is a substring of the URL; nothing else is attached |
| `Dispatcher.MatchingCookiesAppend` | src/request/request.go:28-32 | the cookie filter keeps list order: filtering a concatenation concatenates the filtered parts |
| `Dispatcher.LooseDomainMatch` | src/request/request.go:29 | a cookie for "example.com" is sent to "https://notexample.com/" |
| `Dispatcher.MergeParamsAdd` | src/request/request.go:44-47 | appending one new parameter with `Values.Add` gives the merge of the query with that parameter added |
| `Dispatcher.PreparedHeader` | src/request/request.go:34-40 | each additional header is sent with its one value; User-Agent carries the fixed value, after the caller's own if there is one |
| `Dispatcher.MergeParams` | src/request/request.go:44-47 | the URL's own query values are kept and each parameter's value is appended under its key |
| `Dispatcher.PreparedQuery` | src/request/request.go:42-49 | the raw query is rewritten exactly when parameters are given; existing values are a prefix of the new ones and each parameter's value comes last |
| `Dispatcher.Request.constructor` | src/request/request.go:22 | a new request has the method and URL, no cookies, no headers and the URL's own query |
| `Dispatcher.Request.AddCookie` | src/request/request.go:30 | appends one cookie; headers and query unchanged |
| `Dispatcher.Request.AddHeader` | src/request/request.go:36 | adds one header value; cookies and query unchanged |
| `Dispatcher.AttachCookies` | src/request/request.go:27-32 | the cookie loop leaves the request's cookies equal to the filter of the list |
| `Dispatcher.AddHeaders` | src/request/request.go:34-40 | the header loop, in any map order, then the User-Agent, gives the prepared header |
| `Dispatcher.AddEach` | src/request/request.go:44-47 | the parameter loop, in any map order, gives the merged query values |
| `Dispatcher.AddParams` | src/request/request.go:42-49 | the request's query becomes the prepared query; cookies and headers unchanged |
| `Dispatcher.FirstAccepted` | src/request/request.go:54-62 | the index of the first accepted attempt: it is accepted and none before it is |
| `Dispatcher.Dispatch` | src/request/request.go:54-67 | at most RETRY_COUNTER attempts; the response returned is that of the first accepted attempt; if none is accepted, no response and no error |
| `Dispatcher.DispatchIntended` | src/request/request.go:55-67 | same response and attempt count as Dispatch for every input, and identical to it when an attempt is accepted; when all fail, the error is the last attempt's transport error, or nil when the last attempt failed on its status |
| `Dispatcher.CallResult` | src/request/request.go:22-25 | a NewRequest error is returned before any attempt; otherwise an error is never returned, and never together with a response |
| `Dispatcher.CallRequest` | src/request/request.go:20-68 | the method returns exactly the response and error of CallResult |
| `Dispatcher.AcceptedResponsesOnly` | src/request/request.go:54-62 | no more than RETRY_COUNTER attempts; with status checking a non-200 response is never returned |
| `Dispatcher.ExhaustedRetriesReturnNoError` | src/request/request.go:66-67 | when every attempt is a transport error the result is (nil, nil), while the intended loop reports the last error |
| `Dispatcher.ThreeTimeoutsExample` | src/request/request.go:54-67 | three timeouts with RETRY_COUNTER = 3 give no response and no error after 3 attempts |
| `Downloader.ResolvePath` | src/request/request.go:84-99 | resolution fails (the unescape panic) exactly when the destination has no extension and unescaping the response URL fails |
| `Downloader.ExplicitPathKeepsOwnExtension` | src/request/request.go:94-99 | a destination with an extension keeps it, lower-cased, for any RemoveExtFromFilename, and the response URL plays no part |
| `Downloader.DirectoryTakesResponseExtension` | src/request/request.go:85-93 | in a directory destination the file gets the lower-cased extension of the last part of the unescaped response URL |
| `Downloader.ExplicitPathExample` | src/request/request.go:97-98 | "/out/report.PDF" resolves to "/out/report.pdf" |
| `Downloader.DirectoryExample` | src/request/request.go:87-93 | "/out/" with a URL ending in "My%20File.final.JPG" resolves to "/out/My File.final.jpg" |
| `Downloader.AfterCall` | src/request/request.go:79-123 | a non-nil error is returned exactly when the request returned one; every other return is nil or a panic |
| `Downloader.Partial` | src/request/request.go:114 | the bytes written before a failed copy are a prefix of the body, of the length written |
| `Downloader.Saved` | src/request/request.go:107-123 | after create and copy the path holds the whole body; when the copy fails it holds nothing, or the partial bytes when os.Remove fails too; every other path is unchanged |
| `Downloader.OnlyDestinationChanges` | src/request/request.go:101-123 | no file other than the resolved path is created, changed or removed |
| `Downloader.RequestErrorLeavesDisk` | src/request/request.go:79-81 | a request error is returned before any change to the disk |
| `Downloader.ExistingFileIsSkipped` | src/request/request.go:101-104 | an existing non-empty file at the resolved path is kept as it is and nil is returned |
| `Downloader.FailedCopyIsRemoved` | src/request/request.go:114-121 | after a failed copy whose removal succeeds no file remains at the resolved path, the rest of the disk is unchanged, and nil is returned |
| `Downloader.NoPartialFile` | src/request/request.go:107-123 | unless os.Remove fails, a file left at the resolved path is the whole body or the untouched earlier file |
| `Downloader.FailedRemovalLeavesPartialFile` | src/request/request.go:101-121 | the error of os.Remove is ignored: when copy and removal both fail, the partial bytes stay at the path with a nil result, and a later download to that path skips them as an existing non-empty file |
| `Downloader.ErrorOnlyFromRequest` | src/request/request.go:78-81 | DownloadURL returns a non-nil error exactly when NewRequest failed |
| `Downloader.ExhaustedDownloadPanics` | src/request/request.go:78-82 | when no attempt is accepted, DownloadURL dereferences the nil response and panics, with the disk unchanged |
| `Downloader.DownloadIntended` | src/request/request.go:79-82 | with a nil-response check, a failed request never panics, returns an error and leaves the disk unchanged; wherever the code does not reach the nil dereference (a NewRequest error, or a response), the result is exactly that of the code |
| `Downloader.FileSystem.Create` | src/request/request.go:107 | os.Create leaves an empty file at the path |
| `Downloader.FileSystem.Write` | src/request/request.go:114 | writing appends to the file |
| `Downloader.FileSystem.Save` | src/request/request.go:107-121 | os.Create, the copy and, on failure, os.Remove (which may fail) leave the disk given by `Saved` |
| `Downloader.FileSystem.Remove` | src/request/request.go:117 | os.Remove deletes the path |
| `Downloader.DownloadURL` | src/request/request.go:73-124 | the new disk and the result are those of the specification Download |
| `Coordinator.EffectiveConcurrency` | src/request/request.go:130-132 | the slot count is maxConcurrency lowered to the number of jobs: the minimum of the two |
| `Coordinator.Field` | src/request/request.go:151 | `url["url"]` and `url["filepath"]` read the value under the key, or "" when it is missing |
| `Coordinator.MissingFilepathIsCurrentDirectory` | src/request/request.go:151 | a job without a "filepath" key gets the destination "", a directory: the file is named after the response URL alone |
| `Coordinator.Indices` | src/request/request.go:143 | the job indices are exactly 0 .. len(urls)-1 |
| `Coordinator.PartitionCovers` | src/request/request.go:143-151 | started jobs that are running or finished, never both, and count to the started ones are all the started jobs |
| `Coordinator.AdmitStep` | src/request/request.go:143-145 | starting the next job needs a free slot, and keeps the started jobs split into running and finished ones with the running ones within the slot count |
| `Coordinator.FinishStep` | src/request/request.go:147-150 | a finishing job moves from running to finished, frees its slot, adds exactly one to the finished count, and keeps the running jobs within the slot count |
| `Coordinator.AbortStep` | src/request/request.go:148 | when a running job panics, fewer jobs have finished than were started |
| `Coordinator.AllFinished` | src/request/request.go:153-154 | once every job was started and none runs, every job has finished |
| `Coordinator.DownloadURLsParallel` | src/request/request.go:129-155 | a job starts only on a free slot, so after every step the jobs holding a slot are within min(maxConcurrency, len(urls)) (the step invariant of AdmitStep and FinishStep); the contract bounds `peak` only to 1 .. min(maxConcurrency, len(urls)) when there are jobs (its tie to the slot counts is a loop invariant); the total is len(urls); each finished job adds one tick; without a panic every job finishes and the count equals the total |

## Findings

| source | as written | input that shows it | evidently intended | confidence | as-written member | corrected member |
|---|---|---|---|---|---|---|
| src/request/request.go:55-67 | `resp, err :=` inside the loop declares a new `err`, so the exhausted path returns the `err` of line 22, which is nil | every attempt is a transport error, e.g. three timeouts with RETRY_COUNTER = 3 | return the last attempt's transport error | high; not executed | `Dispatcher.ExhaustedRetriesReturnNoError` | `Dispatcher.DispatchIntended` |
| src/request/request.go:78-82 | only `err` is checked, so a nil response reaches `res.Body` at line 82 | no attempt is accepted (all transport errors, or all non-200 statuses) | treat a nil response as a failed download: return an error and write nothing | high; not executed | `Downloader.ExhaustedDownloadPanics` | `Downloader.DownloadIntended` |

`CallRequest`, `DownloadURL` and `DownloadURLsParallel` model the code as it runs,
so they keep both defects. The corrected members state what a fix must satisfy
and prove it, and each is proved to agree with the code wherever the code does
not hit the defect.

## Left out

- Networking (`http.NewRequest` parsing, `client.Do`, TLS, redirects): each attempt is an abstract outcome. Client timeouts, including the 25-minute timeout of `DownloadURL`, show up only as transport errors.
- The request is not observable through `CallRequest`'s result. Cookie, header and query preparation are stated by `AttachCookies`, `AddHeaders` and `AddParams`, not by the attempt outcomes, which do not depend on the request.
- Header-key canonicalisation (`CanonicalMIMEHeaderKey`) and the `Cookie` header encoding of `AddCookie`: keys are kept as given, and cookies are kept as a list.
- `req.URL.Query()` parsing and `Values.Encode` percent-encoding: the parsed query is an input, and the encoded form is represented by the values it encodes.
- `time.Sleep(utils.GetRandomDelay())`: the delay and its randomness carry no verifiable content.
- The values of `utils.RETRY_COUNTER` and `utils.USER_AGENT`: the file that defines them is not part of this model, so they are fields of `Settings`.
- `utils.RemoveExtFromFilename`, `utils.GetLastPartOfURL` and `url.PathUnescape` (percent-decoding, section 2.1 of RFC 3986): their source is not part of this model, so they are uninterpreted.
- `utils.CheckIfFileIsEmpty` is not part of this model. It is taken to report a missing file as empty, and its error is ignored as the code ignores it.
- `os.MkdirAll` and `filepath.Dir`: the code ignores their errors, and the disk map has no directories.
- `file.Close` and `res.Body.Close`: they have no effect on the abstract disk. A failed copy is modelled as a partial write followed by a removal that may fail.
- `GoFilepath.Join`: models `filepath.Join` without `Clean`. The directory's trailing '/' are trimmed and one separator is inserted. `.`, `..` and repeated separators inside the path are not normalised.
- `GoStrings.ToLower`: lower-cases ASCII letters only; the Unicode case mapping of `strings.ToLower` is not modelled.
- `utils.LogError`, the progress bar's rendering and its completion message: they are output side effects only.
- Goroutines, `sync.WaitGroup` and `close(queue)` are replaced by a sequential scheduler. Each job's download happens at once when that job finishes. Two jobs writing the same path at the same time are not modelled.
- `Coordinator.DownloadURLsParallel`: its contract does not state the final disk contents. Each download's effect is given by `DownloadURL`.
- `Coordinator.DownloadURLsParallel`: the contract only bounds `peak` to 1 .. min(maxConcurrency, len(urls)); that `peak` is at least every count of full slots is a loop invariant, not a postcondition, and the sequence of counts is not returned. The per-step cap is the invariant `Valid` that `AdmitStep` and `FinishStep` preserve.
- `Coordinator.DownloadURLsParallel`: requires `maxConcurrency >= 1`. With 0 slots and at least one job the channel send blocks forever, and a negative size makes `make` panic.
- src/cmds/pixiv_fanbox.go: Cobra flag registration and wiring into other packages.
