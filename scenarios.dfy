/** Callers of the store and the downloader that rely on their contracts alone. */
module Scenarios {
  import opened Wrappers
  import opened FileStore
  import opened Downloader

  /**
   * The extractor expected `X.mp4` but wrote `X_1.mp4`: the download is
   * still reported, under the newer file's name.
   */
  method SuffixedDownloadIsFound(cwd: seq<string>) {
    var names := ["old.mp4", "X_1.mp4"];
    var entries := map["old.mp4" := File(100, 1), "X_1.mp4" := File(200, 2)];
    var store := new DownloadStore(cwd, names, entries);
    var res := Reconcile(store, Some("X"), "X.mp4");
    assert IsRegular(entries, "old.mp4");
    assert IsRegular(entries, "X_1.mp4");
    assert res == Downloaded("X", "X_1.mp4", "/download_file/X_1.mp4");
  }
}
