/** The first stand-alone playlist script: merge, then correct with the
    earlier corrector; exceptions are not caught and leave `main` as they
    are. */
module IptvExtractor {
  import opened Outcomes
  import opened Channels
  import opened Correction

  /** `main`: the corrected playlist of the merged sources. */
  method Extract(urls: string, channelDict: Table, load: string -> Load) returns (r: Outcome<seq<Channel>>)
    ensures MergedPlaylist(Some(urls), load).Raised? ==>
      r == Raised(MergedPlaylist(Some(urls), load).exc)
      && r.exc in {IndexError, MalformedPlaylist}
    ensures MergedPlaylist(Some(urls), load).Done? ==>
      r == Done(CorrectAll(Legacy, channelDict, MergedPlaylist(Some(urls), load).value))
  {
    var merged, _ := MergeSources(Some(urls), load);
    GatherFailures(PyStr.Split(urls, ','), load);
    if merged.Raised? {
      return merged;
    }
    var plNew := CorrectChannels(Legacy, channelDict, merged.value);
    return Done(plNew);
  }
}
