# YouTube downloader front-end: a Dafny model

The application is a small Flask front-end (`app.py`). A user types a video
id or URL and the application downloads that video into a flat `downloads`
directory. The user can then list, fetch and delete the files. The
extraction library does the actual download. This model covers the logic
the application owns:

- **Input validation and normalisation** (`validate_youtube_input`,
  `normalize_youtube_url`), in `normalizer.dfy`. These are pure string
  functions. Validation rejects blank input, input with `<`, `>`, `"` or
  `'`, and input longer than 2048 characters. Normalisation then
  classifies the input, first match wins: a full URL, an 11-character
  video id, a partial youtube.com / youtu.be URL, or the fallback.
- **The downloads directory** (`delete_file`, `list_downloads`, and the
  most-recent-file scan of `download_video`), in `filestore.dfy`. The
  directory is a class, `DownloadStore`. It holds a map from names to
  entries (a regular file with size and modification time, or any other
  entry, such as a subdirectory, a FIFO or a socket) and the order in
  which `os.listdir` enumerates them.
  `Delete` runs the guard chain of `delete_file` and then removes exactly
  one entry. `List` loops over the listing. `MostRecentFile` loops to the
  file that `max(..., key=getmtime)` picks.
- **Path containment** (`os.path.join` / `os.path.abspath` and the prefix
  test of `delete_file`), in `paths.dfy`. A path is resolved to its
  components the way POSIX `normpath` does it.
- **Download reconciliation** (`download_video`), in `downloader.dfy`:
  title sanitisation, the output template, and how the extractor's
  expected file name is checked against the directory.
- `text.dfy` holds the Python `str` operations involved. `strip()` uses
  CPython's exact whitespace set. `startswith`, substring `in` and
  single-character `replace` are also there.
- `scenarios.dfy` holds one caller: an extractor expected `X.mp4` but wrote
  `X_1.mp4`, and the download is still reported.

The central safety property is in `FileStore.Screen` and
`FileStore.AcceptedNameAddressesEntry`. A name that is not blank and has
no `/`, `\` or `..`, and does not start with `.`, resolves to exactly
`<cwd>/downloads/<name>`, one level inside the directory. So the third
check of `delete_file` (the absolute-path prefix test) can never fire. No
name that reaches the directory can address anything outside it.

Three points of the code's behaviour are easy to miss:

- The 2048-character limit bounds the trimmed input, not the URL built
  from it, so the watch-URL prefix can add 32 more characters.
  `ValidateInput` proves the bound `2048 + 32`.
- The expected file is checked with `os.path.exists`, which also accepts
  a subdirectory. `Reconcile` therefore reports any existing entry with
  the expected name, not only regular files.
- Ties on modification time go to the first file in listing order, as
  Python's `max` does.

## Model

| member | source | states |
|---|---|---|
| Text.Strip | app.py:18-21 | `strip()` returns a slice of the input with only whitespace before and after it and none at either end of the slice, which fixes it uniquely; it leaves a stripped string unchanged and is empty exactly when every character is whitespace |
| Text.RemoveChar | app.py:43-44 | `replace(c, '')` keeps exactly the characters other than `c`, each as often as in the input, and `c` not at all |
| Text.RemoveCharConcat | app.py:43-44 | removing `c` from a concatenation concatenates the two removals, so the remaining characters keep their order |
| Text.ReplaceChar | app.py:86 | `replace(a, b)` for single characters keeps the length and changes exactly the positions holding `a`, to `b` |
| Text.ContainsOccurrence | app.py:48 | substring `in` holds exactly when the substring occurs at some position |
| Normalizer.Classify | app.py:38-55 | the first-match branch choice: full URL exactly when the input has a scheme; the second return of the partial-URL branch (line 52) is unreachable |
| Normalizer.NormalizeUrl | app.py:34-55 | the result always starts with `http://` or `https://` and has no surrounding whitespace; it is the trimmed input, or that input behind `https://` or behind the watch prefix; a scheme-prefixed input comes back unchanged; an input with neither a scheme nor a YouTube host gets the watch prefix (with `PartialUrlGetsScheme`, the choice of prefix is an if-and-only-if) |
| Normalizer.ValidateInput | app.py:16-31 | rejects in order: all-whitespace input, then a trimmed input with `<` `>` `"` `'`, then one over 2048 characters; an accepted input gives the normalised URL, which has a scheme, none of the four characters, and at most 2048 + 32 characters |
| Normalizer.NormalizeIdempotent | app.py:36-55 | normalising a normalised URL returns it unchanged |
| Normalizer.NormalizedHasNoForbiddenChar | app.py:24-55 | the prefixes normalisation adds contain none of the forbidden characters and add at most 32 characters |
| Normalizer.MentionImpliesDot | app.py:48 | an input that mentions youtube.com or youtu.be contains a dot |
| Normalizer.VideoIdShape | app.py:39-48 | eleven id characters are trimmed, carry no scheme and mention no YouTube host |
| Normalizer.VideoIdBecomesWatchUrl | app.py:42-55 | any 11 characters over letters, digits, `-`, `_` become the watch URL of that id, including all-`-`/`_` ids, which reach it through the fallback |
| Normalizer.PartialUrlGetsScheme | app.py:47-52 | a trimmed input without a scheme that mentions a YouTube host gets `https://` in front; it never looks like a video id |
| Paths.PathJoin | app.py:179 | `os.path.join`: an absolute second part replaces the first; otherwise the first part, then `/` exactly when the first part is non-empty and does not already end with `/`, then the second part |
| Paths.AbsPath | app.py:180-181 | `os.path.abspath` always yields an absolute path |
| Paths.NormaliseKeepsProper | app.py:180-181 | `normpath` starting from proper components and reading separator-free ones leaves only proper components |
| Paths.ResolveIsNormal | app.py:180-181 | `abspath` from a normalised working directory leaves no empty, `.` or `..` component |
| Paths.Within | app.py:184-186 | the prefix test holds exactly when the path begins with the directory and ends there or continues with a separator, so a sibling name that merely extends the directory's name fails it |
| Paths.JoinTwoParts | app.py:87-88 | joining two separator-free parts puts one `/` between them and splits back into exactly those two parts |
| Paths.JoinProperInside | app.py:179-186 | joining a proper component to the directory and making it absolute gives the directory's components plus that one; as text, the directory, `/`, the name, so it passes the prefix test and differs from the directory |
| FileStore.DeleteOutcome.Message | app.py:162-218 | only the 204 answer has an empty body; every error outcome carries a message |
| FileStore.AcceptedNameIsProper | app.py:162-176 | a name that passes the blank and forbidden-character checks is one proper path component (not empty, not `.` or `..`, no `/`) |
| FileStore.Screen | app.py:161-190 | 400 for a blank name exactly when blank; 400 for a forbidden name exactly when not blank and forbidden; never the path-escape outcome; the directory is consulted exactly for names that are neither |
| FileStore.AcceptedNameAddressesEntry | app.py:178-190 | every name that passes the checks resolves to exactly `<cwd>/downloads/<name>`: the directory's entry of that name and nothing outside |
| FileStore.Without | app.py:206 | removing a name from the listing keeps exactly the other names and their distinctness |
| FileStore.WithoutConcat | app.py:206 | taking a name out of a concatenated listing concatenates the two results, so the remaining names keep their listing order |
| FileStore.ListingExact | app.py:229-239 | every record is a regular file of the directory with its size and url `/download_file/<name>`, every regular file has a record, and no name is listed twice |
| FileStore.ListingAfterRemoval | app.py:206-207 | after an entry is removed, the listing holds exactly the earlier records other than that name's |
| FileStore.DownloadStore.constructor | app.py:11-13 | the directory starts with the given listing and entries and a consistent listing |
| FileStore.DownloadStore.List | app.py:226-239 | the loop returns the listing of the current directory in listing order |
| FileStore.DownloadStore.MostRecentFile | app.py:112-120 | none exactly when the directory holds no regular file; otherwise a regular file whose modification time no regular file exceeds, and no earlier regular file has an equal time |
| FileStore.DownloadStore.Delete | app.py:157-218 | the guard outcomes of `Screen`, then 404 for a missing name, 400 for an entry that is not a regular file, and 403 or 500 when the removal raises; 204 removes exactly that entry and its listing position; every other outcome leaves the directory unchanged |
| Downloader.SanitizeTitle | app.py:84-86 | the sanitised title has the title's length, contains no space and no `/`, and keeps every other character in place |
| Downloader.DownloadResult.Message | app.py:102-103 | a success message starts with `Video "` and quotes the video title right after it; a failure's message is its text unchanged |
| Downloader.OutputTemplate | app.py:87-88 | the output template is the downloads directory, one `/`, and a separator-free file name ending with the extension placeholder |
| Downloader.TemplateStaysInStore | app.py:86-88 | the output template splits into exactly the downloads directory and the sanitised title with the extension placeholder, so the file lands directly in the directory |
| Downloader.MissingTitleIsUnknown | app.py:82-88 | without a title the output is named `Unknown` |
| Downloader.Reconcile | app.py:97-137 | the expected file if it exists; otherwise the newest regular file, first on ties; a failure only when the directory holds no regular file |
| Downloader.DownloadVideo | app.py:63-143 | an invalid input and an extractor exception become failures carrying their message; otherwise the extractor runs on the normalised URL and its output is reconciled; a success always names an entry of the directory |

## Left out

- Flask glue: routing, `jsonify`, `render_template`, `flash`/`redirect`, `send_file` and `app.run` (app.py:1-8, 58-60, 242-243). Outcomes are datatypes that carry the status code and message.
- The file-serving route `download_file` (app.py:146-154). It only checks existence and streams the file, which is HTTP glue.
- The extraction library. `extract_info`, `prepare_filename` and `download` (app.py:79-95) are one function parameter from URL to run report: an exception message, or the title and the expected base name. The library's own file-name rules are not modelled. The directory passed in is the state the download left.
- Real filesystem calls. `os.listdir` order is the store's `names`. `getmtime` is an integer here, not a float. `getsize` is a natural number.
- The existence test of the directory in `list_downloads` (app.py:230) and its creation at startup (app.py:12-13). The model assumes the directory exists.
- The catch-all 500 handler of `delete_file` (app.py:219-223). No modelled step raises anything other than the two removal faults.
- Exceptions in `download_video` that come from neither the extractor nor validation, such as a failing directory listing.
- `str.isalnum` is ASCII here (letters and digits). Python also accepts non-ASCII letters and digits, so `LooksLikeVideoId` is narrower for such inputs.
- Paths follow POSIX rules only. The working directory is a list of components. `normpath`'s special case of exactly two leading slashes is not modelled, and neither are symbolic links.
- Concurrency between downloads. The source has none, and nothing in the model shares state across requests.
