/** The file name that `NewsScraper.download_image` derives from an image URL,
    and its fall-back to "" when anything goes wrong. */
module Image {
  import opened Wrappers

  /** `url.split("/")[-1]`: what follows the last '/', or all of `url` when it
      has none. */
  function LastSegment(url: string): (seg: string)
    ensures '/' !in seg
    ensures |seg| <= |url| && seg == url[|url| - |seg|..]
    ensures |seg| == |url| || url[|url| - |seg| - 1] == '/'
    decreases |url|
  {
    if url == [] || url[|url| - 1] == '/' then []
    else LastSegment(url[..|url| - 1]) + [url[|url| - 1]]
  }

  /** The segment is fixed by the three facts above: whatever ends in '/'
      before a slash-free tail is ignored. */
  lemma LastSegmentOfJoin(prefix: string, name: string)
    requires '/' !in name
    requires prefix == [] || prefix[|prefix| - 1] == '/'
    ensures LastSegment(prefix + name) == name
  {
    var url := prefix + name;
    assert url[|url| - |name|..] == name;
    assert prefix != [] ==> url[|url| - |name| - 1] == '/';
  }

  /** `os.path.join(directory, name)` as `posixpath` does it, for two
      components. Joining a slash-free name keeps the directory in front,
      and the name is again the last segment of the result. */
  function PathJoin(directory: string, name: string): (r: string)
    ensures '/' !in name ==> |directory| <= |r| && r[..|directory|] == directory
    ensures '/' !in name ==> LastSegment(r) == name
  {
    if |name| > 0 && name[0] == '/' then name
    else if directory == [] || directory[|directory| - 1] == '/' then
      assert '/' !in name ==> LastSegment(directory + name) == name by {
        if '/' !in name { LastSegmentOfJoin(directory, name); }
      }
      directory + name
    else
      assert '/' !in name ==> LastSegment(directory + "/" + name) == name by {
        if '/' !in name { LastSegmentOfJoin(directory + "/", name); }
      }
      directory + "/" + name
  }

  /** `os.path.join(output_dir, url.split("/")[-1]) + ".jpg"`: for a directory
      given without a trailing '/', the directory, a '/', the URL's last
      segment and ".jpg". */
  function ImageFilename(outputDir: string, url: string): (filename: string)
    ensures |filename| >= 4 && filename[|filename| - 4..] == ".jpg"
    ensures outputDir != [] && outputDir[|outputDir| - 1] != '/' ==>
      filename == outputDir + "/" + LastSegment(url) + ".jpg"
  {
    var seg := LastSegment(url);
    assert |seg| > 0 ==> seg[0] in seg;
    PathJoin(outputDir, seg) + ".jpg"
  }

  /** `download_image(url)`. `url` is None when the element had no `src`
      attribute, so that `url.split` raises; `fetch(url, filename)` tells
      whether the download to `filename` succeeded. On success the file name
      is returned, on any failure "". */
  function DownloadImage(outputDir: string, url: Option<string>, fetch: (string, string) -> bool): (r: string)
    ensures url.None? ==> r == ""
    ensures url.Some? ==> (r == "" <==> !fetch(url.value, ImageFilename(outputDir, url.value)))
    ensures r != "" ==> url.Some? && r == ImageFilename(outputDir, url.value)
  {
    match url
    case None => ""
    case Some(u) =>
      var filename := ImageFilename(outputDir, u);
      if fetch(u, filename) then filename else ""
  }
}
