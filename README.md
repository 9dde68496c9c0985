# embox core, modelled in Dafny

This project models the decision logic and the small state machines of embox. Embox is a photo and video library built from a Go API, which keeps its files in a remote file store, and a Vue/Ionic client. It models each core source file as its own module:

- **API models and services.** The media paths (`MediaModel`) and the media pipeline (`MediaService`): create, upload, batch update and delete. The thumbnail helpers are modelled in two variants, `MediaService` and `MediaServiceHelper`, plus `Webpconv`. `Imaging` holds the abstract image: format, size, EXIF orientation and a geo flag. Also the remote-store client (`StorageService`), the albums (`AlbumService`) and the e-mail language (`Email`).
- **Repositories.** The single-use login tokens (`UserRepository`) and the favourites relation (`FavouriteRepository`).
- **Configuration and middleware.** The environment helpers (`EnvVars`). The request gates (`Middleware`): the CSRF double-submit check, auth with require-auth, and the per-client limiter map.
- **Client.** The pure parts of the HTTP client and one call of it (`HttpService`). The upload queue (`UploadStore`), the selection (`Selection`), the app store (`AppStore`), the session store (`MeStore`), the form validator (`Validation`) and the route guard (`Guard`).
- **Shared modules.** `Outcomes` holds Option and Result. `Text` holds decimal digits, splitting, trimming and prefixes.

Parts the code cannot see or cannot decide are parameters of the model: they are given, not computed. These are:

- the clock and time parsing;
- random draws;
- the network: responses are abstract records of a status and a body that is a JSON string, some other value, or undecodable;
- image decoding and encoding, and the ffmpeg process;
- file access;
- failures of the database and of the rate-limiting library.

A state that the source updates in place is a class. Its methods state the whole new state, and lemmas about the functions that specify those methods carry the properties.

## Model
| member | source | states |
|---|---|---|
| HttpService.FirstPart | app/src/services/http.service.ts:60 | the first part of a split at ';' is a prefix without ';' that ends the text or stops at a ';' |
| HttpService.GetCookieOnce | app/src/services/http.service.ts:55-64 | a cookie is found only when "; name=" occurs in "; " + cookies, and exactly once; its value is the text after that occurrence up to the next ';' |
| HttpService.FirstSemicolon | app/src/services/http.service.ts:60 | in a value without ';' followed by ";…", the first ';' is right after the value |
| HttpService.GetCookieSole | app/src/services/http.service.ts:55-64 | the converse of GetCookieOnce: after the first "; name=", a value that ends the text or a ';' and that has no second "; name=" after it is what the lookup returns |
| HttpService.GetCookieFirst | app/src/services/http.service.ts:55-64 | a cookie string starting with name=value, a non-empty value and no second cookie of that name, reads back as that value |
| HttpService.GetHeadersFacts | app/src/services/http.service.ts:103-110 | the JSON headers hold exactly Content-Type, accept, the CSRF header for a truthy token, and the caller's headers, which win over the other three |
| HttpService.FormHeadersFacts | app/src/services/http.service.ts:166-167 | FormData headers are the caller's with the CSRF header over them; the token wins, and there is a Content-Type only when the caller gave one |
| HttpService.HandleHttpErrorFacts | app/src/services/http.service.ts:112-127 | an HttpError is rethrown as it is; another Error keeps its message with the default code; any other value gets the default message and code; handling a handled error changes nothing |
| HttpService.CatchAsWrittenCodes | app/src/services/http.service.ts:278-288 | as written, the outer catch only ever gives 408 or 500, so the 503 network error never occurs |
| HttpService.CatchAsWrittenExamples | app/src/services/http.service.ts:278-288 | as written, a thrown 404 HttpError comes out as 500, and a failed fetch as a 500 with no network message |
| HttpService.CatchFacts | app/src/services/http.service.ts:275-299 | the corrected catch passes an HttpError on; otherwise it gives 408, 500 or 503; 503 is exactly a failed fetch (or a passed-on 503); the message is the written one except for the network error |
| HttpService.RequestShape | app/src/services/http.service.ts:149-178 | GET puts the parameters in the query string and sends no body; other methods send FormData as it is or the JSON text; a truthy token reaches the CSRF header unless the caller's JSON headers set it |
| HttpService.Built | app/src/services/http.service.ts:187-194 | the request is the as-written one when the options are spread last, and the merged-headers one as intended |
| HttpService.OptionHeadersReplaceMerged | app/src/services/http.service.ts:187-194 | as written, a call with its own headers sends only those: the CSRF header and the JSON Content-Type are lost, which the merged headers have |
| HttpService.ParseBodyCases | app/src/services/http.service.ts:210-218 | 204 and empty text give null; text that does not parse comes back as it is; anything else is its JSON |
| HttpService.ErrorMessage | app/src/services/http.service.ts:264 | the message is the JSON body's message exactly when that is present and non-empty, and the status text in every other case |
| HttpService.FetchCsrfFacts | app/src/services/http.service.ts:72-94 | a token comes exactly from an ok response plus a readable XSRF-TOKEN cookie, decoded; other failures after the fetch give "Failed to fetch CSRF token" with 500 |
| HttpService.TryFacts | app/src/services/http.service.ts:196-274 | the try block logs out at most once, and a block that returns shows no notification and logs nobody out |
| HttpService.RequestNotices | app/src/services/http.service.ts:139-304 | a rejected call's last notification is its error's message; a resolved call shows none and logs nobody out |
| HttpService.RequestSent | app/src/services/http.service.ts:151-197 | at most one logout per call; no request is sent exactly when the token was missing and could not be fetched |
| HttpService.TokenCached | app/src/services/http.service.ts:151 | with a truthy token cached, the token endpoint's answer makes no difference |
| HttpService.BlobReply | app/src/services/http.service.ts:199-206 | a blob comes back exactly when one was asked for and the first response is ok |
| HttpService.SilentRefresh | app/src/services/http.service.ts:259-262 | a 401 from the refresh endpoint resolves to null, with no notification and no logout |
| HttpService.UnauthorizedLogsOut | app/src/services/http.service.ts:233-257 | a 401 elsewhere whose refresh or retry fails logs out once and shows "Unauthorized"; the corrected catch rejects with 401, the written one with 500 |
| HttpService.StatusKept | app/src/services/http.service.ts:264-287 | any other failed status is rejected with the server's message or the status text; the corrected catch keeps the status, the written one turns it into 500 |
| HttpService.RequestSends | app/src/services/http.service.ts:151-197 | with a truthy token the request that goes out is the one its configuration builds, whatever the network answers |
| HttpService.AsWrittenCallOmitsCsrf | app/src/services/http.service.ts:187-197 | end to end, a JSON call with headers of its own and a cached token goes out, as written, without the CSRF header or the JSON Content-Type; as intended it carries both |
| HttpService.TokenFailure | app/src/services/http.service.ts:151-160 | when the token cannot be fetched its error is shown twice, nothing is sent, nobody is logged out, and the call is rejected with it |
| HttpService.Client.Send | app/src/services/http.service.ts:139-304 | the state after one call (token, notifications, logouts), the request sent and the reply are those of the request function, for the configuration as written or as intended and for either catch; loading is off at the end |
| MediaService.GetMediaType | api/internal/services/media_service.go:315-326 | "image", "video", "audio" exactly when the MIME string starts with that word and no earlier word matched; "other" otherwise |
| MediaService.GetFileExt | api/internal/services/media_service.go:338-344 | the extension has no dot; a name with a dot ends in "." + extension; a name without one gives "" |
| MediaService.ExtensionFacts | api/internal/services/media_service.go:339-343 | the last part of the split at '.' is dot-free and, with two or more parts, the name ends in "." followed by it |
| MediaService.ApplyOrientation | api/internal/services/media_service.go:420-431 | 3 turns by 180 degrees, 6 and 8 swap width and height, every other value leaves the picture unchanged |
| MediaService.ConvertToWebP | api/internal/services/media_service.go:380-418 | the method that sets `needsProcessing` step by step gives the result of the conversion function |
| MediaService.SkipIff | api/internal/services/media_service.go:386-409 | the input bytes come back unchanged exactly for a WebP image at most 512 wide with no orientation above 1 |
| MediaService.ResizeByWidthOnly | api/internal/services/media_service.go:400-404 | only the width triggers a resize: an image at most 512 wide is encoded at its own size, however tall |
| MediaService.MirroredOrientationsReencode | api/internal/services/media_service.go:393-396 | orientations 2, 4, 5 and 7 leave the picture as it is but still force a re-encode |
| MediaService.EncodedWidthBound | api/internal/services/media_service.go:400-404 | whatever is encoded is at most 512 wide |
| MediaService.ParseDate | api/internal/services/media_service.go:130-136 | a date is the RFC 3339 reading or else the local-layout reading; none exactly when both fail |
| MediaService.AfterCreate | api/internal/services/media_service.go:151-180 | after the row exists: the original is uploaded under RemotePath before any thumbnail; only a fully successful image or video writes a local file at Path; the row is never removed |
| MediaService.CreateStep | api/internal/services/media_service.go:121-181 | a missing user or an unparseable date leaves the store unchanged; otherwise the row is created with the next id, the user's id and no favourite, and a later failure keeps the row |
| MediaService.CreateStepNextId | api/internal/services/media_service.go:147-149 | a successful create advances the id counter by one |
| MediaService.UploadLoopResponses | api/internal/services/media_service.go:194-220 | a successful batch answers one response per file in order, with consecutive ids and no favourite |
| MediaService.UploadLoop | api/internal/services/media_service.go:194-220 | the batch loop keeps the store invariant (rows under their own ids, below the next id, with valid dates) whatever fails |
| MediaService.UploadLoopAborts | api/internal/services/media_service.go:199-208 | a file that cannot be opened makes the whole batch fail, whatever came before it |
| MediaService.UploadLoopStep | api/internal/services/media_service.go:196-218 | one turn of the loop: an unopenable file aborts; otherwise the create step's failure aborts or its response leads the rest |
| MediaService.UpdateItem | api/internal/services/media_service.go:233-272 | an item is saved exactly when its row loads, its date (if any) parses and the save succeeds; a saved row is the old row with the new caption and, when a date was given, the parsed date, and nothing else changes; a missing row, a bad date or a failed save leaves the store unchanged and reports that id with its reason |
| MediaService.UpdateLoop | api/internal/services/media_service.go:233-273 | a batch update creates and removes no row and touches no file |
| MediaService.UpdateLoopAccounts | api/internal/services/media_service.go:230-279 | every request ends up either updated or reported, and the errors name ids that were asked for |
| MediaService.UpdateLoopFrame | api/internal/services/media_service.go:233-273 | a row no request names is unchanged, and no row appears or disappears |
| MediaService.Found | api/internal/services/media_service.go:284 | the rows a deletion finds are the stored rows of requested ids: every requested id with a row is found, and no id twice |
| MediaService.Targets | api/internal/services/media_service.go:289-296 | one local path and one remote path per found row, in order |
| MediaService.AttemptsOrder | api/internal/services/media_service.go:289-296 | for each row, first the local removal and then the remote delete |
| MediaService.DeleteLoop | api/internal/services/media_service.go:289-296 | the file loop leaves the rows alone |
| MediaService.DeleteLoopCalls | api/internal/services/media_service.go:289-296 | the loop makes every attempt whatever the remote outcomes: a failed remote delete is only logged |
| MediaService.DeleteLoopRemovesLocal | api/internal/services/media_service.go:290-291 | no found row keeps its local file |
| MediaService.DeleteAll | api/internal/services/media_service.go:283-299 | a failed lookup changes nothing; otherwise the rows of all requested ids are deleted, found or not |
| MediaService.MediaService.CreateFromRequest | api/internal/services/media_service.go:121-181 | the method's new store and result are those of CreateStep |
| MediaService.MediaService.UploadMedia | api/internal/services/media_service.go:184-221 | the loop's new store and result are those of UploadAll: unknown user, count mismatch, or the batch loop |
| MediaService.MediaService.UpdateMediaBatch | api/internal/services/media_service.go:224-280 | an unknown user fails with nothing changed; otherwise the loop gives UpdateLoop's store and both lists |
| MediaService.MediaService.UpdateOne | api/internal/services/media_service.go:234-272 | one iteration of the update loop gives UpdateItem's store and outcome |
| MediaService.MediaService.DeleteMedia | api/internal/services/media_service.go:283-299 | the method's new store and result are those of DeleteAll |
| MediaServiceHelper.GetMediaType | api/internal/services/media_service_helper.go:26-37 | one of "image", "video", "audio", "other"; "other" exactly when the MIME string starts with none of the three words |
| MediaServiceHelper.SameMediaType | api/internal/services/media_service_helper.go:26-37 | the helper's classification and the one in the service file answer alike on every MIME string |
| MediaServiceHelper.GetFileExt | api/internal/services/media_service_helper.go:49-55 | the extension is dot-free; a name containing a dot ends in "." + extension; a name without a dot gives "" |
| MediaServiceHelper.ExtUnique | api/internal/services/media_service_helper.go:49-55 | a name made of any text, a dot and a dot-free tail yields exactly that tail |
| MediaServiceHelper.FileExtLastPart | api/internal/services/media_service_helper.go:50-53 | "a.tar.gz" gives only the last part, "gz" |
| MediaServiceHelper.FileExtLeadingDot | api/internal/services/media_service_helper.go:50-53 | ".bashrc" gives "bashrc" |
| MediaServiceHelper.FileExtTrailingDot | api/internal/services/media_service_helper.go:50-53 | "name." gives "" |
| MediaServiceHelper.FileExtNoDot | api/internal/services/media_service_helper.go:51-54 | "name" gives "" |
| MediaServiceHelper.SameFileExt | api/internal/services/media_service_helper.go:49-55 | the helper's extension function and the one in the service file agree on every name |
| MediaServiceHelper.ConvertToWebP | api/internal/services/media_service_helper.go:58-64 | the delegate returns the converter's outcome for the 512 limit; its only errors are the decode and encode failures |
| MediaServiceHelper.DelegateFitsBox | api/internal/services/media_service_helper.go:59 | whatever the delegate encodes is at most 512 on both sides |
| MediaServiceHelper.ScaleFilter | api/internal/services/media_service_helper.go:77 | the video filter text is exactly `scale='min(512,iw)':-2` |
| MediaServiceHelper.TempVideoParts | api/internal/services/media_service_helper.go:68 | the temporary name is the directory, "/media_", the decimal id, "_orig." and the extension |
| MediaServiceHelper.TempVideoInjective | api/internal/services/media_service_helper.go:68 | two media share a temporary video name only when their ids and extensions are equal |
| MediaServiceHelper.PosterInjective | api/internal/services/media_service_helper.go:68-74 | two media share a poster name only when their ids and extensions are equal |
| MediaServiceHelper.PosterNeverVideo | api/internal/services/media_service_helper.go:68-74 | with a dot-free extension, no poster name equals any media's temporary video name |
| MediaServiceHelper.PosterOrder | api/internal/services/media_service_helper.go:67-97 | the file operations happen in the source's order: write the video, ffmpeg, read the poster, then remove the poster and the video, each removal only once its file exists |
| MediaServiceHelper.PosterResult | api/internal/services/media_service_helper.go:69-96 | a poster is returned exactly when the write, ffmpeg, the read and the conversion all succeed, and it is the poster converted to WebP |
| MediaServiceHelper.PosterLeavesNoTempFiles | api/internal/services/media_service_helper.go:69-84 | after the write succeeded, the directory ends without both temporary files and otherwise as it was |
| MediaServiceHelper.WriteThenRemove | api/internal/services/media_service_helper.go:69-84 | writing then removing a file leaves every other file untouched |
| MediaServiceHelper.TempDir.Write | api/internal/services/media_service_helper.go:69 | the write succeeds unless the path is one that fails, records the operation, and stores the data only on success |
| MediaServiceHelper.TempDir.Remove | api/internal/services/media_service_helper.go:72-84 | records the removal and drops the path from the directory |
| MediaServiceHelper.TempDir.GenerateVideoPoster | api/internal/services/media_service_helper.go:67-97 | the method with its step-by-step removals ends with the files, operations and result the poster function gives |
| MediaServiceHelper.TempDir.ReadAndConvert | api/internal/services/media_service_helper.go:86-96 | reading the poster back and converting it gives the outcome function's result |
| Webpconv.ApplyOrientationEffect | api/pkg/webpconv/webpconv.go:75-86 | 3 turns by 180, 6 by 270 and 8 by 90 degrees; width and height swap exactly for 6 and 8; the picture changes exactly for 3, 6 and 8 |
| Webpconv.ConvertToWebP | api/pkg/webpconv/webpconv.go:26-73 | the step-by-step conversion gives the converter's outcome; undecodable data is an error; WebP input comes back as it was, with no position and not portrait |
| Webpconv.EncodePath | api/pkg/webpconv/webpconv.go:35-64 | a decodable non-WebP input is encoded; it has a position exactly when the EXIF data decodes one; an integer orientation tag is applied; the result is an error exactly when the encoder fails |
| Webpconv.PortraitAfterRotation | api/pkg/webpconv/webpconv.go:44-55 | portrait is judged after rotation: orientations 6 and 8 compare the original width with the original height the other way round |
| Webpconv.EncodedFitsBox | api/pkg/webpconv/webpconv.go:53-59 | what is encoded is at most maxSize on both sides, and a picture that already fit is encoded as it is |
| Imaging.Rotate90 | api/pkg/webpconv/webpconv.go:81-82 | a quarter turn swaps width and height |
| Imaging.Rotate180 | api/pkg/webpconv/webpconv.go:77-78 | a half turn keeps the size |
| Imaging.Rotate270 | api/pkg/webpconv/webpconv.go:79-80 | three quarter turns swap width and height |
| Imaging.ResizeToWidth | api/internal/services/media_service.go:400-404 | resizing to a width with height 0 gives exactly that width, a height of at least 1 and the same orientation |
| Imaging.FitWide | api/pkg/webpconv/webpconv.go:57-59 | a picture wider than the box's aspect ratio is fitted to the box's full width and a height inside the box |
| Imaging.FitTall | api/pkg/webpconv/webpconv.go:57-59 | any other oversized picture is fitted to the box's full height and a width inside the box |
| Imaging.FitWithinBox | api/pkg/webpconv/webpconv.go:57-59 | a fitted picture lies inside the box, keeps its orientation, touches the box on one side when it was oversized, and is unchanged when it already fit |
| MediaModel.DateLayoutParses | api/internal/models/media_model.go:52 | the `2006/01/02` layout has ten characters, slashes at 4 and 7, and its three parts read back as year, month and day |
| MediaModel.SharedPrefix | api/internal/models/media_model.go:51-65 | both paths begin with the date, '_', the decimal id and '.', and each part reads back as the number it came from |
| MediaModel.RemotePathSuffix | api/internal/models/media_model.go:62-65 | the remote path ends in "." + the stored extension, whatever the type |
| MediaModel.PathExtension | api/internal/models/media_model.go:51-59 | images and videos get a ".webp" local path, every other type the remote path; the local path ends in ".webp" exactly in those cases |
| MediaModel.PathIgnoresCase | api/internal/models/media_model.go:54 | media types equal after lower-casing give the same paths |
| MediaModel.PathParts | api/internal/models/media_model.go:51-65 | the local and remote paths are the date, '_', the decimal id and '.', followed by "webp" or the extension |
| MediaModel.PathInjective | api/internal/models/media_model.go:51-59 | with date, extension and thumbnail kind fixed, equal local paths mean equal ids |
| MediaModel.RemotePathInjective | api/internal/models/media_model.go:62-65 | with date and extension fixed, equal remote paths mean equal ids |
| StorageService.FileUrl | api/internal/services/storage_service.go:156 | the file URL ends in "/file/?p=/" followed by the path |
| StorageService.FileUrlInjective | api/internal/services/storage_service.go:156 | different paths give different lookup and delete URLs |
| StorageService.LastIndex | api/internal/services/storage_service.go:71-72 | no position exactly when the character is absent; otherwise the position holds it and none follows |
| StorageService.Base | api/internal/services/storage_service.go:72 | `filepath.Base`: never empty; either "/" or slash-free; a slash-free non-empty path is its own base |
| StorageService.BaseIgnoresTrailingSlash | api/internal/services/storage_service.go:72 | a trailing slash does not change the base of a non-empty path |
| StorageService.BaseStrips | api/internal/services/storage_service.go:72 | Base("a/b/") is "b", Base("/") is "/", Base("") is "." |
| StorageService.DirBase | api/internal/services/storage_service.go:71-72 | for a clean relative path with a directory, Dir is the part before the last slash, Base the part after, and Dir + "/" + Base is the path again |
| StorageService.CleanDirectory | api/internal/services/storage_service.go:71 | `filepath.Clean` of clean elements and a trailing slash only drops the slash |
| StorageService.DirCollapsesSlashes | api/internal/services/storage_service.go:71 | `filepath.Dir` cleans its result: "a//b" has directory "a" |
| StorageService.DirDropsDot | api/internal/services/storage_service.go:71 | "a/./b" has directory "a" |
| StorageService.DirResolvesParent | api/internal/services/storage_service.go:71 | "a/../b" has directory "." |
| StorageService.DirTopLevel | api/internal/services/storage_service.go:71 | "/a" has directory "/", a bare name has directory "." |
| StorageService.LastIndexAt | api/internal/services/storage_service.go:71-72 | a position holding the character with none after it is the last position |
| StorageService.RemotePathSplit | api/internal/services/storage_service.go:64-72 | a remote media path is uploaded as `dd_{id}.{ext}` into the directory `yyyy/mm/` |
| StorageService.Pairs | api/internal/services/storage_service.go:187-189 | one pair per value of the header, in order, each carrying the header's name |
| StorageService.FlattenMembers | api/internal/services/storage_service.go:186-190 | a name and value are passed on exactly when the caller's headers hold that value under that name |
| StorageService.PassThrough | api/internal/services/storage_service.go:186-190 | the nested copy loop produces every value of every header, header by header |
| StorageService.AuthCachedOrOneRequest | api/internal/services/storage_service.go:36-41 | a cached token means success with no request; otherwise exactly the token request is sent |
| StorageService.AuthTrace | api/internal/services/storage_service.go:32-61 | at most one request; the token is unchanged unless no token was cached and the step succeeded |
| StorageService.AuthStoresOnSuccess | api/internal/services/storage_service.go:42-60 | with no cached token the step succeeds exactly on a 200 whose body decodes as an object or is null; the token becomes the decoded token (empty for null); every error keeps the old token |
| StorageService.NullTokenBody | api/internal/services/storage_service.go:53-60 | a 200 with body null succeeds with the token still empty, and the next upload request carries the bare "Token " header |
| StorageService.TokenNeverInvalidated | api/internal/services/storage_service.go:32-61 | once cached, no upload, stream, download or delete replaces or clears the token |
| StorageService.RelativePathAlwaysWritten | api/internal/services/storage_service.go:93-103 | the relative path ends in '/', so the form always carries parent_dir "/", the relative path and replace "1" |
| StorageService.UploadNeedsTwo200s | api/internal/services/storage_service.go:65-130 | an upload first asks for the link of "/", then posts the base name and the three fields to the decoded link; it succeeds exactly when the link answer is 200 and decodes (a string, or null as ""), and the file answer is delivered with 200 |
| StorageService.NullUploadLink | api/internal/services/storage_service.go:244-275 | a null upload link decodes as the empty URL; the file request is refused by the client and the upload fails with a transport error |
| StorageService.UploadTrace | api/internal/services/storage_service.go:65-130 | the token is the token step's; a successful upload sent two requests after the token step, the last posting the base name, the bytes and the form fields |
| StorageService.StreamAcceptance | api/internal/services/storage_service.go:150-204 | the stream looks the file up at its file URL, then requests the decoded link (null decodes as "") with exactly the caller's header values; 200 and 206 are accepted and returned, anything else fails |
| StorageService.NullStreamLink | api/internal/services/storage_service.go:174-196 | a null download link decodes as the empty URL; the stream request is refused by the client and fails with a transport error |
| StorageService.StreamTrace | api/internal/services/storage_service.go:150-204 | the token is the token step's; an accepted stream has status 200 or 206 and its last request carries exactly the caller's header values |
| StorageService.DownloadIsStreamBody | api/internal/services/storage_service.go:133-146 | a download is the stream without extra headers; it succeeds when the body reads, giving the data and the Content-Type |
| StorageService.DeleteEnvelope | api/internal/services/storage_service.go:208-242 | a delete succeeds exactly on a 200 whose body is not null and, when it is a JSON string, is "success"; a body that does not decode passes; a null body fails with the empty reply |
| StorageService.DeleteReply | api/internal/services/storage_service.go:234-239 | the reply is accepted exactly when it is not null and any JSON string is "success"; the error carries the decoded reply ("" for null) |
| StorageService.DeleteTrace | api/internal/services/storage_service.go:208-242 | the token is the token step's; a successful delete sent exactly the delete request after the token step; an unexpected reply is never "success" |
| StorageService.DecodeString | api/internal/services/storage_service.go:174-177 | decoding into a string succeeds exactly for a JSON string or null, giving the string or ""; any other body is a decode error |
| StorageService.Deliver | api/internal/services/storage_service.go:118 | a request with an empty URL is refused without reaching the network; any other gets the network's answer |
| StorageService.Client.Send | api/internal/services/storage_service.go:118 | the client's answer (none for an empty URL) is returned and the request is appended to those sent; the token is untouched |
| StorageService.Client.Auth | api/internal/services/storage_service.go:32-61 | the token, the requests sent and the result are those of the token step, null body included |
| StorageService.Client.GetUploadUrl | api/internal/services/storage_service.go:244-275 | sends the upload-link request for the directory; on a 200 the link is the decoded string ("" for null), any other body is a decode error |
| StorageService.Client.Upload | api/internal/services/storage_service.go:65-130 | the token, the requests sent and the result are those of the upload trace |
| StorageService.Client.DownloadStream | api/internal/services/storage_service.go:150-204 | the token, the requests sent and the result are those of the stream trace |
| StorageService.Client.Download | api/internal/services/storage_service.go:133-146 | the token, the requests sent and the result are those of the download trace |
| StorageService.Client.Delete | api/internal/services/storage_service.go:208-242 | the token, the requests sent and the result are those of the delete trace |
| AlbumService.InnerJoin | api/internal/repositories/album_repository.go:64 | the joined entries are exactly the album's entries whose media row exists, never more of them |
| AlbumService.InsertKeepsOrder | api/internal/repositories/album_repository.go:65 | inserting an entry after those not older than it keeps the newest-first order |
| AlbumService.ByDate | api/internal/repositories/album_repository.go:65 | the sorted entries are a permutation of the given ones, newest media date first |
| AlbumService.Joined | api/internal/repositories/album_repository.go:63-65 | the loaded entries are a permutation of the album's entries whose media row exists, ordered newest media date first |
| AlbumService.JoinedNewerFirst | api/internal/repositories/album_repository.go:63-65 | two linked media, the second dated later, load in the opposite order |
| AlbumService.CoverEntries | api/internal/services/album_service.go:37-42 | one entry per requested id, in order, marked as cover exactly when the id is the requested cover id |
| AlbumService.MapEntries | api/internal/services/album_service.go:131-143 | nil exactly for an album without entries; otherwise one response per entry, in order, carrying the entry's ids and its media's fields |
| AlbumService.UnlistedCount | api/internal/services/album_service.go:172-176 | an id already in the album is dropped every time; any other id is kept as often as it was requested |
| AlbumService.UnlistedAppend | api/internal/services/album_service.go:172-176 | filtering a concatenation filters each part |
| AlbumService.Members | api/internal/services/album_service.go:167-170 | the set holds exactly the listed ids |
| AlbumService.CollectIds | api/internal/services/album_service.go:167-170 | the loop builds the set of the existing ids |
| AlbumService.KeepUnlisted | api/internal/services/album_service.go:172-176 | the loop keeps the requested ids not in the set, in order, duplicates included |
| AlbumService.NewMediaIds | api/internal/services/album_service.go:161-176 | the new ids are the requested ids the album does not already hold |
| AlbumService.Upserted | api/internal/repositories/album_repository.go:17-19 | the stored entries link no media id twice, are all among the given entries, and link every media id given |
| AlbumService.FreshEntries | api/internal/services/album_service.go:37-44 | a new album stores each requested id exactly once, with the cover flag set by id |
| AlbumService.CreateOutcome | api/internal/services/album_service.go:19-52 | it succeeds exactly for a known user when the insert does not fail and every requested id has a media row (api/internal/models/album_model.go:32); an unknown user gets user-not-found, any other failure create-failed, and a failure changes nothing; otherwise one new private album owned by the user is stored under the next id, linking exactly the requested ids, each once, with the cover flag set by id; its response counts the requested ids, repeats included, and has no media list |
| AlbumService.Overwrite | api/internal/services/album_service.go:60-65 | a name or description replaces the stored one only when it is not empty; nothing else changes |
| AlbumService.UpdateOutcome | api/internal/services/album_service.go:54-81 | a failed load or save changes nothing; success stores the overwritten album and answers with its id, name, description and entry count and an empty list |
| AlbumService.EntryIds | api/internal/repositories/album_repository.go:77-90 | the stored ids are the entries' media ids, in order |
| AlbumService.EntryIdsAppend | api/internal/repositories/album_repository.go:77-90 | the ids of appended entries follow the earlier ones |
| AlbumService.Tagged | api/internal/repositories/album_repository.go:96-106 | one entry per id, in order, all with the given cover flag |
| AlbumService.AddOutcome | api/internal/services/album_service.go:160-183 | it fails exactly when the id lookup fails, or when there are new ids and the insert fails, the album is missing, a new id is repeated (the pair is the table's key, api/internal/models/album_model.go:27-30) or a new id has no media row (api/internal/models/album_model.go:32); on failure nothing changes; a change appends exactly the new ids with the given cover flag |
| AlbumService.AddCounts | api/internal/services/album_service.go:160-183 | after a successful add every requested id is in the album; an id that was there keeps its count; a new id appears exactly once |
| AlbumService.AddRepeatFails | api/internal/repositories/album_repository.go:96-106 | adding [5, 5] to an album without media 5 fails and changes nothing |
| AlbumService.UpsertedTwice | api/internal/repositories/album_repository.go:17-19 | an entry given twice is stored once |
| AlbumService.CreateRepeatStoredOnce | api/internal/services/album_service.go:19-52 | creating an album with [5, 5], media 5 existing, succeeds, stores media 5 once and answers a count of two |
| AlbumService.AddUnknownMediaFails | api/internal/repositories/album_repository.go:96-106 | adding a new id with no media row fails and changes nothing |
| AlbumService.CreateUnknownMediaFails | api/internal/services/album_service.go:44-47 | creating an album that links an id with no media row fails with create-failed and changes nothing |
| AlbumService.DistinctCount | api/internal/models/album_model.go:27-30 | without repeats an id occurs at most once |
| AlbumService.AddKeepsTable | api/internal/repositories/album_repository.go:96-106 | adding keeps every album's media ids free of repeats |
| AlbumService.WithoutDistinct | api/internal/repositories/album_repository.go:108-110 | removing entries keeps an album's media ids free of repeats |
| AlbumService.ViewsShape | api/internal/services/album_service.go:96-109 | one view per shown entry, in order |
| AlbumService.AlbumViewShape | api/internal/services/album_service.go:111-117 | a view carries the album's id, name and description, the given count, and nil or one response per shown entry |
| AlbumService.ViewFromMapped | api/internal/services/album_service.go:145-151 | a response built from the mapped entries is the album's view |
| AlbumService.FirstIdIsMin | api/internal/repositories/album_repository.go:33 | the first media id is one of the album's ids and no id is smaller |
| AlbumService.PreviewOf | api/internal/repositories/album_repository.go:31-34 | the preview holds exactly the entries that are covers or link the smallest media id |
| AlbumService.PreviewShows | api/internal/repositories/album_repository.go:31-34 | an album with entries shows at least one entry in the list, and it shows every cover |
| AlbumService.ListedIdsShape | api/internal/repositories/album_repository.go:25-54 | the listed ids are exactly the stored ids, each once, in ascending id order (the order is admitted under "## Left out") |
| AlbumService.ListOutcome | api/internal/services/album_service.go:83-93 | the list fails exactly for an unknown user or a failed query, and an unknown user gets user-not-found |
| AlbumService.ListContents | api/internal/services/album_service.go:83-122 | every stored album appears once, each with all its entries counted (not only those shown); the ascending id order is admitted under "## Left out" |
| AlbumService.ListItemFacts | api/internal/repositories/album_repository.go:37-41 | a list item carries the album's id and counts all of its entries |
| AlbumService.DeleteOutcome | api/internal/services/album_service.go:156-158 | it fails exactly when the repository fails, and then changes nothing; success removes that album and no other |
| AlbumService.Without | api/internal/repositories/album_repository.go:108-110 | the remaining entries are exactly those whose media id is not listed |
| AlbumService.RemoveOutcome | api/internal/services/album_service.go:185-187 | it fails exactly when the repository fails; a missing album is left alone; otherwise none of the listed ids remains in the album and the rest is kept |
| AlbumService.ItemsShape | api/internal/services/album_service.go:96-119 | one list item per listed id, in order |
| AlbumService.ListItems | api/internal/services/album_service.go:96-119 | the loop builds the list item of each album, in order |
| AlbumService.Service.CreateAlbum | api/internal/services/album_service.go:19-52 | the table, next id and result are those of the creation outcome, and the table invariant (ids are keys below the next id, no album links a media id twice) is kept |
| AlbumService.Service.UpdateAlbum | api/internal/services/album_service.go:54-81 | the table and result are those of the update outcome |
| AlbumService.Service.GetAlbumList | api/internal/services/album_service.go:83-122 | the result is the list outcome |
| AlbumService.Service.GetAlbumByID | api/internal/services/album_service.go:124-154 | fails exactly when the album does not load; otherwise it is the view of the loaded entries (those with a media row, newest media date first), counted as mapped |
| AlbumService.Service.DeleteAlbum | api/internal/services/album_service.go:156-158 | the table and result are those of the delete outcome |
| AlbumService.Service.AddMediaToAlbum | api/internal/services/album_service.go:160-183 | the table and result are those of the add outcome, and the table invariant is kept |
| AlbumService.Service.RemoveMediaFromAlbum | api/internal/services/album_service.go:185-187 | the table and result are those of the remove outcome |
| Email.Language | api/internal/services/email_service.go:62-71 | a value that is not a string gives "de"; a string longer than two bytes is cut to its first two; a shorter one is returned as it is |
| Email.LanguagePrefix | api/internal/services/email_service.go:67-70 | the language is the prefix of at most two bytes, exactly as long as the string allows, and empty only for the empty string |
| Email.LanguageIdempotent | api/internal/services/email_service.go:62-71 | choosing the language again from a chosen code gives that code back |
| EnvVars.SanitizeEnv | api/pkg/env/env.go:12-23 | an empty name is an error; a value is returned only trimmed and non-empty |
| EnvVars.SanitizeFacts | api/pkg/env/env.go:17-22 | a named variable is an error exactly when its value is all white space (unset included), with the empty-value error; otherwise the value has no white space at either end and is a slice of the raw value |
| EnvVars.GetEnv | api/pkg/env/env.go:25-32 | the default on any error, else the trimmed value |
| EnvVars.Atoi | api/pkg/env/env.go:40 | a parsed value lies in the 64-bit range |
| EnvVars.AtoiDecimal | api/pkg/env/env.go:40 | every 64-bit integer printed in decimal, with a minus sign when negative, parses back to itself |
| EnvVars.GetEnvAsInt | api/pkg/env/env.go:34-46 | the default when the value is blank or does not parse as a 64-bit integer; otherwise the parsed trimmed value |
| EnvVars.ParseBoolSpellings | api/pkg/env/env.go:54 | "true"/"false", "1"/"0" and "T"/"F" parse to their truth values; "yes", "" and "tRUE" do not parse |
| EnvVars.GetEnvAsBool | api/pkg/env/env.go:48-60 | the default when the value is blank or does not parse; otherwise the parsed trimmed value |
| EnvVars.GetEnvSliceParts | api/pkg/env/env.go:62-68 | only an exactly empty value gives the default; otherwise the untrimmed value is split into one more part than it has commas, no part holds a comma, and joining the parts with commas gives the value back |
| FavouriteRepository.Insert | api/internal/repositories/favourite_repository.go:23-30 | an existing pair is left alone (do nothing on conflict); a new pair is appended with the next key and the time, unless the database refuses it |
| FavouriteRepository.InsertKeeps | api/internal/repositories/favourite_repository.go:28 | a successful insert keeps the unique index, keeps every row and leaves the pair present |
| FavouriteRepository.AddAllFacts | api/internal/repositories/favourite_repository.go:21-33 | adding keeps the unique index and every row; success makes every requested pair a favourite; a failure names the refused id, and every id before it was added |
| FavouriteRepository.PairKept | api/internal/repositories/favourite_repository.go:21-33 | a pair in the rows before stays after rows are appended |
| FavouriteRepository.AddAllIdempotent | api/internal/repositories/favourite_repository.go:28 | adding the same ids again after a successful add, at any time, changes nothing and succeeds |
| FavouriteRepository.AllPresent | api/internal/repositories/favourite_repository.go:28 | when every pair is already there, adding changes nothing and succeeds |
| FavouriteRepository.KeptRows | api/internal/repositories/favourite_repository.go:35-37 | a removal drops exactly the user's rows for the listed media and keeps every other row |
| FavouriteRepository.KeptUnique | api/internal/repositories/favourite_repository.go:35-37 | a removal keeps the unique index |
| FavouriteRepository.Repository.Add | api/internal/repositories/favourite_repository.go:21-33 | the loop's table and result are those of the insert sequence, each pass stamped with its own reading of the clock, and the unique index is kept |
| FavouriteRepository.Repository.Remove | api/internal/repositories/favourite_repository.go:35-37 | fails exactly when the delete fails, and then changes nothing; otherwise the kept rows remain with the same next key |
| Guard.Decide | app/src/router/guard.ts:20-41 | a failing user load lets every navigation through; signed out, only the public paths pass and the rest go to /login; signed in, a path passes exactly when it is no login page and, unless the user is an admin, no admin path; the rest go to / |
| Guard.GuardProtects | app/src/router/guard.ts:11-41 | when the user loads, nobody signed out passes outside the public paths and only admins pass to an admin path |
| Guard.RedirectSettles | app/src/router/guard.ts:29-39 | the target of a redirect is never redirected again for the same user |
| Guard.RouteGuard | app/src/router/guard.ts:4-42 | the navigation is decided on the store `init` leaves, unchecked when `init` throws; a signed-out user whose refresh resolves to null passes on every path, while an object without a user lets them pass only on the public paths |
| Middleware.Csrf | api/internal/api/middleware/csrf_middleware.go:10-25 | GET, HEAD and OPTIONS pass; any other method passes exactly when the XSRF-TOKEN cookie exists and the header repeats it; otherwise 403 with no message |
| Middleware.CsrfCaseSensitive | api/internal/api/middleware/csrf_middleware.go:12-15 | method names are compared as written: "get" is checked, "GET" is not |
| Middleware.CsrfEmptyCookie | api/internal/api/middleware/csrf_middleware.go:17-22 | a cookie with an empty value lets a request without the header through |
| Middleware.RequireAuth | api/internal/api/middleware/require_auth_middleware.go:10-20 | a missing user or the empty string is refused with 401 "unauthorized"; anything else continues |
| Middleware.Context.Auth | api/internal/api/middleware/auth_middleware.go:10-35 | the request always continues, once; "user" is set to the claims' user exactly when the cookie is present and validates, and the keys are otherwise untouched |
| Middleware.Context.RequireUser | api/internal/api/middleware/require_auth_middleware.go:10-20 | decides as the require-auth rule on the stored user, records that decision and leaves the keys alone |
| Middleware.AuthThenRequire | api/internal/api/middleware/auth_middleware.go:10-35 | auth followed by require-auth lets a fresh request through exactly when the cookie validates with a non-empty user |
| Middleware.Registry.GetLimiter | api/internal/api/middleware/rate_limit_middleware.go:15-24 | a known client keeps its limiter whatever rate is asked now; a new client gets a new limiter with the asked rate and burst |
| Middleware.Registry.RateLimit | api/internal/api/middleware/rate_limit_middleware.go:26-36 | the client's limiter is fetched or made with interval duration / count and burst count; the request continues exactly when the limiter allows it, else 429 "Rate limit exceeded"; no other client changes |
| UserRepository.FirstWhere | api/internal/repositories/user_repository.go:44 | none exactly when no user matches; otherwise a matching user with no match before it |
| UserRepository.SixDigitsShape | api/internal/repositories/user_repository.go:122-125 | a token has six characters, all digits, and reads back as the draw |
| UserRepository.SixDigitsInjective | api/internal/repositories/user_repository.go:124 | different draws give different tokens |
| UserRepository.AcceptedFrom | api/internal/repositories/user_repository.go:111-118 | the attempt found is accepted and lies among the ten; no earlier attempt from the start point is accepted |
| UserRepository.UniqueEmpty | api/internal/repositories/user_repository.go:110-120 | "" is returned exactly when none of the ten attempts is accepted |
| UserRepository.UniqueFree | api/internal/repositories/user_repository.go:110-120 | a returned token is one of the ten candidates whose count was zero: held by no user unless its count query failed |
| UserRepository.ByToken | api/internal/repositories/user_repository.go:42-71 | an unknown token changes nothing; a known one is cleared and saved whether it expired or not; it logs in exactly when no more than the valid duration has passed, returning the cleared user |
| UserRepository.TokenSingleUse | api/internal/repositories/user_repository.go:42-62 | after a successful login the same token never logs in as that user again (given unique user ids) |
| UserRepository.GenerateOutcome | api/internal/repositories/user_repository.go:89-108 | an unknown email, an exhausted loop or a failed save changes nothing; success gives the first user with that email the unique token and the current time, and saves it |
| UserRepository.Repository.RemoveToken | api/internal/repositories/user_repository.go:64-71 | clears the user's token columns and saves, or fails and changes nothing |
| UserRepository.Repository.GetByToken | api/internal/repositories/user_repository.go:42-62 | the table and result are those of the token login |
| UserRepository.Repository.GenerateUniqueToken | api/internal/repositories/user_repository.go:110-120 | the bounded loop returns the token of the unique-token function |
| UserRepository.Repository.GenerateToken | api/internal/repositories/user_repository.go:89-108 | the table and result are those of the generation outcome |
| Validation.FirstFailing | app/src/composables/use-validation.ts:45-50 | none exactly when every rule passes; otherwise a failing rule with no failing rule before it |
| Validation.FirstFailureWins | app/src/composables/use-validation.ts:45-50 | rules after the first failing one are never consulted: appending rules keeps its message |
| Validation.Check | app/src/composables/use-validation.ts:31-53 | no element means no change; a guard answering false records "" and untouched; otherwise the first failing rule's message (or "") and touched |
| Validation.FormValidAfter | app/src/composables/use-validation.ts:69-72 | after one field's error is recorded, the form is valid exactly when that error is "" and every other recorded error is |
| Validation.Form.FirstError | app/src/composables/use-validation.ts:44-50 | the rule loop yields the first failing rule's message, or "" when all pass |
| Validation.Form.ValidateField | app/src/composables/use-validation.ts:31-63 | the field's error and touched flag become what the check gives; no other entry changes |
| Validation.Form.ValidateAllFields | app/src/composables/use-validation.ts:65-67 | each declared field is validated once; at the end each field's entries are what its check gives and every other entry is as before |
| MeStore.IsAdmin | app/src/stores/me.store.ts:15 | true exactly when a user is signed in and is an admin |
| MeStore.Id | app/src/stores/me.store.ts:18-21 | the signed-in user's id, or the "user.id is not callable" error exactly when nobody is signed in |
| MeStore.Name | app/src/stores/me.store.ts:22-25 | the signed-in user's name, or the error exactly when nobody is signed in |
| MeStore.Email | app/src/stores/me.store.ts:26-29 | the signed-in user's email, or the error exactly when nobody is signed in |
| MeStore.HasPublicFavourites | app/src/stores/me.store.ts:30-33 | the signed-in user's flag, or the error exactly when nobody is signed in |
| MeStore.ReplyError | app/src/stores/me.store.ts:48 | a reply with no object to destructure throws: the request's own error, or a TypeError for null |
| MeStore.Store.Init | app/src/stores/me.store.ts:45-55 | no request once initialised and signed in; a failed request, or a null reply (destructuring `data` out of it throws), changes nothing and is an error; an object reply marks the store initialised and signs in a user with a truthy id, and only such a user |
| MeStore.Store.Login | app/src/stores/me.store.ts:73-79 | a reply with data signs that user in; a reply without data changes nothing; a failed request or a null reply is an error |
| MeStore.Store.Logout | app/src/stores/me.store.ts:86-91 | once the request succeeds nobody is signed in; a failed request changes nothing |
| MeStore.Store.Update | app/src/stores/me.store.ts:99-105 | refused without a request when nobody is signed in; a failed request or a null reply changes nothing; the reply's data replaces the user; a non-empty new email that differs signs out |
| MeStore.Store.DeleteAccount | app/src/stores/me.store.ts:112-118 | refused without a request when nobody is signed in; after a successful request nobody is signed in |
| Selection.Added | app/src/stores/selectedMedia.store.ts:29-33 | a media whose id is already selected leaves the selection as it is; any other is appended; the id is selected afterwards |
| Selection.AddedUnique | app/src/stores/selectedMedia.store.ts:29-33 | adding keeps the ids unique, and adding a media with the same id twice is adding it once |
| Selection.Removed | app/src/stores/selectedMedia.store.ts:34-36 | no media with the removed id is left |
| Selection.RemovedFacts | app/src/stores/selectedMedia.store.ts:34-36 | removal keeps exactly the media of other ids, in their order and each as often as before, leaves no media of that id, and changes nothing when the id is absent |
| Selection.RemovedUnique | app/src/stores/selectedMedia.store.ts:34-36 | removal keeps the ids unique |
| Selection.Ids | app/src/stores/selectedMedia.store.ts:9 | one id per selected media, in order |
| Selection.First | app/src/stores/selectedMedia.store.ts:11 | nothing exactly for an empty selection, else the first media |
| Selection.OnlyGetters | app/src/stores/selectedMedia.store.ts:13-20 | the four "only" getters are false on an empty selection, no two opposite ones hold together, and one media decides them all |
| Selection.Store.Set | app/src/stores/selectedMedia.store.ts:26-28 | the selection becomes that one media |
| Selection.Store.Add | app/src/stores/selectedMedia.store.ts:29-33 | the loop over the selection gives the added selection |
| Selection.Store.Remove | app/src/stores/selectedMedia.store.ts:34-36 | the selection becomes the removed selection |
| Selection.Store.Clear | app/src/stores/selectedMedia.store.ts:37-39 | the selection becomes empty and the album id stays |
| Selection.Store.SetAlbumId | app/src/stores/selectedMedia.store.ts:40-42 | the album id is set and the selection stays |
| Selection.Store.Reset | app/src/stores/selectedMedia.store.ts:43-46 | the selection is empty and no album is set |
| AppStore.BreakpointOf | app/src/stores/app.store.ts:16-22 | the width lies in the chosen breakpoint's band: at least its minimum and below the next one's |
| AppStore.BreakpointMonotone | app/src/stores/app.store.ts:16-22 | a wider screen never gets a smaller breakpoint |
| AppStore.GridColumns | app/src/stores/app.store.ts:107-120 | four columns on the smallest screens and one more per breakpoint |
| AppStore.SizeChain | app/src/stores/app.store.ts:102-106 | each size test holds for its breakpoint and every smaller one |
| AppStore.ColumnsIncrease | app/src/stores/app.store.ts:107-120 | a larger breakpoint has more columns |
| AppStore.Store.GetNotification | app/src/stores/app.store.ts:98-101 | the notification's message and error |
| AppStore.Store.SetLoading | app/src/stores/app.store.ts:67-69 | sets the loading flag and nothing else |
| AppStore.Store.SetAppMode | app/src/stores/app.store.ts:33-35 | sets the mode, so exactly one of the two mode getters holds, and nothing else |
| AppStore.Store.SetNotification | app/src/stores/app.store.ts:78-81 | the notification becomes the message and error; there is an error exactly when it is not null |
| AppStore.Store.UnsetNotification | app/src/stores/app.store.ts:86-89 | clears the message and error, so neither a notification nor an error is shown |
| AppStore.ErrorWithoutNotification | app/src/stores/app.store.ts:96-97 | an empty message with a falsy error that is not null counts as an error but not as a notification |
| UploadStore.PendingFromFacts | app/src/stores/upload.store.ts:57 | the positions are exactly those of the pending files, each once, in increasing order |
| UploadStore.PendingComplete | app/src/stores/upload.store.ts:57 | every pending file from the start point on is listed |
| UploadStore.PendingFromSame | app/src/stores/upload.store.ts:57 | queues that agree on which files are pending give the same positions |
| UploadStore.Take | app/src/stores/upload.store.ts:57 | the batch is the first six pending positions, or all of them when there are fewer |
| UploadStore.FailsNames | app/src/stores/upload.store.ts:68-71 | the failed list depends only on the files' names and contents as the uploads settle |
| UploadStore.SettleFacts | app/src/stores/upload.store.ts:61-75 | settling a batch resolves each of its files as its upload went and no other, adds one to the progress per file, and appends the successes and the failures in order |
| UploadStore.OksFails | app/src/stores/upload.store.ts:61-75 | each settled file lands in exactly one of the two lists |
| UploadStore.MarkFacts | app/src/stores/upload.store.ts:59 | marking sets exactly the batch's files to uploading |
| UploadStore.SettleAgree | app/src/stores/upload.store.ts:59-75 | the uploading mark is overwritten by settling: queues differing only in the batch's status settle alike |
| UploadStore.SettleFront | app/src/stores/upload.store.ts:55-57 | settling the first pending files leaves the rest of them pending, and nothing else |
| UploadStore.RunShrinks | app/src/stores/upload.store.ts:55-78 | one round of the loop settles the batch and removes it from the pending files |
| UploadStore.SettleAppend | app/src/stores/upload.store.ts:55-78 | settling two batches one after the other is settling them together |
| UploadStore.RunAll | app/src/stores/upload.store.ts:55-78 | the batches together settle every pending file once, in queue order |
| UploadStore.UploadEffect | app/src/stores/upload.store.ts:42-89 | after a run no file is pending; every file pending at the start is uploaded or failed as its upload went, the others are untouched; the progress counts the pending files; each is in exactly one returned list |
| UploadStore.RunCompletes | app/src/stores/upload.store.ts:19 | after a run the queue is complete exactly when every file was already uploaded, or pending with an upload that succeeds |
| UploadStore.QueuedShape | app/src/stores/upload.store.ts:27-31 | each new file is queued with its fields kept and its status set to pending |
| UploadStore.Store.AddFiles | app/src/stores/upload.store.ts:27-31 | the new files are appended as queued; nothing else changes |
| UploadStore.Store.SetAlbum | app/src/stores/upload.store.ts:33-35 | sets the album and nothing else |
| UploadStore.Store.ClearFiles | app/src/stores/upload.store.ts:96-99 | empties the queue and resets the progress; nothing else changes |
| UploadStore.Store.MarkBatch | app/src/stores/upload.store.ts:59 | the batch's files become uploading; nothing else changes |
| UploadStore.Store.SettleBatch | app/src/stores/upload.store.ts:61-77 | the uploads of a batch, one after the other, give the settled progress |
| UploadStore.Store.UploadFiles | app/src/stores/upload.store.ts:42-89 | refused with empty lists while a run is going on; otherwise the run's queue, responses and progress, the run flag and album reset, the ids of all recorded responses sent to a set album, and the two lists unless adding them failed |

## Left out
- Pixel work: decoding, EXIF parsing, resampling and encoding are given outcomes. The abstract image keeps only its format, width, height, EXIF orientation and geo flag; the rotations, the resize to a width and the fit into a box, with their integer rounding, are modelled on the width and height alone.
- The ffmpeg process, file reads and writes, temporary directories and content sniffing are success or failure outcomes; the deferred removals appear in a trace of file operations.
- Floating point: the latitude and longitude of a location, the WebP quality value and the token-bucket arithmetic of golang.org/x/time/rate. Whether a limiter allows a request is a given answer.
- Middleware.Registry.RateLimit: requires a positive request count, because with zero the source divides by zero and panics.
- Concurrency: the token mutex of the storage client, the limiter mutex and `Promise.all` in the upload store are modelled as sequential steps in list order.
- Time: `time.Parse` with its two layouts, `time.Now` and `time.Since` are oracles or whole-number durations; `math/rand` draws are a given function from attempt number to draw.
- SQL and GORM: stores are maps and sets. The media and favourite listing queries ordered by date, newest first, are not part of this model; the album's entries loaded newest first are (`AlbumService.Joined`), with entries of one date in stored order, one of the orders the database may choose. `GetByIDs` has no ORDER BY, so the database may return the rows in any order; `MediaService.Found` returns them in request order, one of the orders it may choose. The album list's `COUNT(*)` subquery is modelled (`AlbumService.ListItem`, counted in `AlbumService.ListContents`). The join and aggregate queries of the favourite repository (api/internal/repositories/favourite_repository.go:45-97) and the media repository's listing query (api/internal/repositories/media_repository.go:35-39) are not part of this model.
- JWT signing and validation, cookie setting and CSRF token generation: validating an access cookie is a given function.
- Gin handlers, routing, response envelopes, logging, configuration loading, SMTP sending and e-mail templates, the thin user and favourite services and the thin client service wrappers.
- Cookie values are compared as the framework hands them over; gin's unescaping of cookie values is not modelled.
- HTTP client transport: `fetch` itself, the AbortController timer (an abort is a given thrown value named AbortError) and the content of the 419 and 401 retry requests and of the refresh request. Only their outcomes are modelled.
- HttpService: header names are map keys compared exactly, not case-insensitively as HTTP treats them.
- HttpService.FetchCsrf: `decodeURIComponent`, which `fetchCsrfToken` applies to the cookie value, is a given total function; its URIError on a malformed escape is not modelled. `getCookie` itself returns the raw value.
- HttpService: a parsed JSON body is reduced to its `message` field when that is a string; other JSON shapes carry no message.
- HttpService: the second blob check (app/src/services/http.service.ts:270-272) cannot be reached once the first has returned, and is not modelled.
- HttpService: console logging, and the request `me.logout` issues from inside a call, which is recorded only as a logout.
- UploadStore: `Object.values` over the upload responses is modelled as the set of media ids that those responses carry. The responses are never cleared between sessions, which the model keeps.
- DOM, localStorage, dark mode, `updateBreakpoint` and `window` in the app store; `el.classList` in the validator; `router.replace` and `requestToken` in the session store.
- The duplicate definitions of `getMediaType`, `getFileExt`, `convertToWebP` and `generateVideoPoster` in media_service.go and media_service_helper.go mean the package does not compile. Each is modelled in its own module. Which `convertToWebP` a build would link cannot be decided; `MediaService` uses media_service.go's own conversion (`MediaService.Reencoded`) for images, and only the video poster step is a parameter of the environment.
- The helper's `convertToWebP` returns a `*WebPResult` where bytes are expected; the model keeps the `WebPResult` and does not model the type error.
- `saveMediaFile` and `loadMediaFromDisk` are file I/O and appear only as outcomes.
- AlbumService.ListContents and AlbumService.ListedIdsShape: the list query and its preview preload (api/internal/repositories/album_repository.go:25-43) have no ORDER BY, so the database may return the albums and their preview entries in any order. The model lists the albums in ascending id order and each preview in stored order; that is one order the database may choose, and the strictly increasing ids the two lemmas prove are a property of that choice, not a promise of the source.
- AlbumService.Upserted: a create that repeats a media id is taken to store that pair once. GORM saves a new album's entries with an upsert on the (album id, media id) key, and GORM's SQL is not part of this model. The plain insert of `AddMediaToAlbum` (api/internal/repositories/album_repository.go:96-106) has no such clause, so a repeated new id makes that insert fail (`AlbumService.AddOutcome`).
- MediaServiceHelper.TempVideoName: the temporary directory and the file name are joined with one '/'. `filepath.Join` (api/internal/services/media_service_helper.go:68) also cleans the result, which differs only when the directory ends in '/' or is not clean; the model takes the directory as clean.
- UserRepository.ByToken and UserRepository.GenerateOutcome: every error of the `First` lookup (api/internal/repositories/user_repository.go:44, 91) is modelled as no row found (`NotFound`). A database error of another kind is passed on by the source with its own message, which the model does not distinguish.
- Text.ToLower: lower-cases ASCII letters only. Go's `strings.ToLower` (api/internal/models/media_model.go:54) maps every Unicode upper-case letter, and a few non-ASCII capitals lower to ASCII letters (U+0130 to `i`). So a type such as "İMAGE", which the source takes as an image, is not recognised by `MediaModel`.

## Findings
| source | as written | input that shows it | evidently intended | confidence | as-written member | corrected member |
|---|---|---|---|---|---|---|
| app/src/services/http.service.ts:278-288 | the outer catch turns every Error that is not an AbortError into a 500, including the HttpErrors thrown above it with their own status, so the 503 branch for a failed fetch is unreachable | a 404 response, which should reject with 404 but rejects with 500; a TypeError "Failed to fetch", which gives 500 instead of the network error 503; a 401 whose retry fails, which gives 500 "Unauthorized" | an HttpError passes through unchanged and a failed fetch gives 503 | not executed | HttpService.CatchAsWritten | HttpService.Catch |
| app/src/services/http.service.ts:187-194 | the caller's options are spread over the request configuration last, so their own `headers` replace the merged headers completely | a call with `options.headers = {}` while a CSRF token is cached: the request goes out with no X-XSRF-TOKEN and no JSON Content-Type | the merged headers, with the caller's entries over the defaults | not executed | HttpService.SentAsWritten | HttpService.SentRequest |
