/**
 * `download_video` around the extractor: validating the input, naming the
 * output after the sanitised title, and reconciling the extractor's
 * expected file name with what the downloads directory actually holds.
 */
module Downloader {
  import opened Wrappers
  import opened Text
  import opened Paths
  import opened Normalizer
  import opened FileStore

  /** Title used when the extractor reports none. */
  const UnknownTitle := "Unknown"

  /** The extension placeholder the extractor fills in. */
  const ExtensionTemplate := ".%(ext)s"

  const ErrorPrefix := "Error downloading video: "

  const NotLocatedMessage := "Video was downloaded but file could not be located"

  /**
   * What a run of the extractor on one URL reports: the exception it raised,
   * or the title from its metadata (if any) and the base name of the file it
   * expects to have written.
   */
  datatype ExtractorRun =
    | Raised(message: string)
    | Completed(title: Option<string>, expected: string)

  /**
   * The JSON answer of `download_video`. A success message quotes the title
   * right after `Video "`; a failure's message is its text as it stands.
   */
  datatype DownloadResult =
    | Downloaded(title: string, filename: string, url: string)
    | Failed(message: string)
  {
    function Message(): (r: string)
      ensures Downloaded? ==> StartsWith(r, "Video \"") && OccursAt(r, title, 7)
      ensures Failed? ==> r == message
    {
      match this
      case Downloaded(title, _, _) => "Video \"" + title + "\" downloaded successfully!"
      case Failed(message) => message
    }
  }

  function VideoTitle(title: Option<string>): string {
    match title
    case Some(t) => t
    case None => UnknownTitle
  }

  /**
   * The title with every space turned into `_` and every `/` into `-`:
   * same length, no space and no separator left, every other character kept.
   */
  function SanitizeTitle(title: string): (r: string)
    ensures |r| == |title|
    ensures ' ' !in r && '/' !in r
    ensures forall i :: 0 <= i < |title| ==>
      r[i] == (if title[i] == ' ' then '_' else if title[i] == '/' then '-' else title[i])
  {
    ReplaceChar(ReplaceChar(title, ' ', '_'), '/', '-')
  }

  /**
   * The `outtmpl` set before the download: the downloads directory, one
   * separator, and a separator-free file name that ends with the extension
   * placeholder.
   */
  function OutputTemplate(title: Option<string>): (r: string)
    ensures StartsWith(r, DownloadsDir + "/")
    ensures '/' !in r[|DownloadsDir| + 1..]
    ensures |r| >= |DownloadsDir| + 1 + |ExtensionTemplate|
    ensures r[|r| - |ExtensionTemplate|..] == ExtensionTemplate
  {
    var stem := SanitizeTitle(VideoTitle(title)) + ExtensionTemplate;
    StemHasNoSeparator(SanitizeTitle(VideoTitle(title)));
    JoinTwoParts(DownloadsDir, stem);
    var r := PathJoin(DownloadsDir, stem);
    assert r[|DownloadsDir| + 1..] == stem;
    r
  }

  /**
   * The output template names a file directly in the downloads directory:
   * exactly two components, the directory and the sanitised title with the
   * extension placeholder.
   */
  lemma {:induction false} TemplateStaysInStore(title: Option<string>)
    ensures Split(OutputTemplate(title)) ==
      [DownloadsDir, SanitizeTitle(VideoTitle(title)) + ExtensionTemplate]
  {
    var stem := SanitizeTitle(VideoTitle(title)) + ExtensionTemplate;
    StemHasNoSeparator(SanitizeTitle(VideoTitle(title)));
    JoinTwoParts(DownloadsDir, stem);
  }

  lemma StemHasNoSeparator(sanitized: string)
    requires '/' !in sanitized
    ensures '/' !in sanitized + ExtensionTemplate
  {
    assert '/' !in ExtensionTemplate;
  }

  /** Without a title the output is named `Unknown`, which sanitising leaves alone. */
  lemma MissingTitleIsUnknown()
    ensures OutputTemplate(None) == DownloadsDir + "/" + UnknownTitle + ExtensionTemplate
  {
    assert ' ' !in UnknownTitle && '/' !in UnknownTitle;
    ReplaceAbsentChar(UnknownTitle, ' ', '_');
    ReplaceAbsentChar(UnknownTitle, '/', '-');
    JoinTwoParts(DownloadsDir, UnknownTitle + ExtensionTemplate);
  }

  /**
   * What `download_video` reports once the download returned: the expected
   * file if it exists, otherwise the newest regular file, otherwise a
   * failure.
   */
  ghost predicate Reconciled(
    names: seq<string>, entries: map<string, Entry>,
    title: Option<string>, expected: string, res: DownloadResult)
  {
    if expected in entries then
      res == Downloaded(VideoTitle(title), expected, DownloadRoute + expected)
    else if NoRegularFiles(entries) then
      res == Failed(NotLocatedMessage)
    else
      res.Downloaded? && res.title == VideoTitle(title)
      && IsNewest(names, entries, res.filename) && res.url == DownloadRoute + res.filename
  }

  /**
   * The reconciliation step of `download_video`, run on the directory as the
   * download left it.
   */
  method Reconcile(store: DownloadStore, title: Option<string>, expected: string)
    returns (res: DownloadResult)
    requires store.Valid()
    ensures Reconciled(store.names, store.entries, title, expected, res)
  {
    if expected in store.entries {
      return Downloaded(VideoTitle(title), expected, DownloadRoute + expected);
    }
    var newest := store.MostRecentFile();
    match newest
    case Some(name) =>
      res := Downloaded(VideoTitle(title), name, DownloadRoute + name);
    case None =>
      res := Failed(NotLocatedMessage);
  }

  /**
   * `download_video`: an invalid input and an extractor exception both
   * become a failure carrying their message; otherwise the extractor runs on
   * the normalised URL and its output is reconciled with the directory. A
   * reported success always names an entry of the directory.
   */
  method DownloadVideo(store: DownloadStore, input: string, extractor: string -> ExtractorRun)
    returns (res: DownloadResult)
    requires store.Valid()
    ensures ValidateInput(input).Failure? ==>
      res == Failed(ErrorPrefix + ValidateInput(input).error.Message())
    ensures ValidateInput(input).Success? && extractor(ValidateInput(input).value).Raised? ==>
      res == Failed(ErrorPrefix + extractor(ValidateInput(input).value).message)
    ensures ValidateInput(input).Success? && extractor(ValidateInput(input).value).Completed? ==>
      var run := extractor(ValidateInput(input).value);
      Reconciled(store.names, store.entries, run.title, run.expected, res)
    ensures res.Downloaded? ==> res.filename in store.entries && res.url == DownloadRoute + res.filename
  {
    var url := ValidateInput(input);
    match url
    case Failure(e) =>
      res := Failed(ErrorPrefix + e.Message());
    case Success(u) =>
      var run := extractor(u);
      match run
      case Raised(message) =>
        res := Failed(ErrorPrefix + message);
      case Completed(title, expected) =>
        res := Reconcile(store, title, expected);
  }
}
