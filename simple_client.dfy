/** The earlier web service: the playlist is always corrected by the
    earlier corrector and the flag picks which playlist is served; the guide
    is fetched over HTTP and rewritten with a key lookup. */
module SimpleClient {
  import opened Outcomes
  import opened Channels
  import opened Correction
  import opened Guide

  /** `get_iptv`: merge the sources, correct a copy of every merged channel,
      then serve the corrected playlist when `filtered` and the merged one,
      untouched by the correction, otherwise. */
  method GetIptv(urls: Option<string>, filtered: bool, channelDict: Table, load: string -> Load)
    returns (r: Outcome<seq<Channel>>)
    ensures MergedPlaylist(urls, load).Raised? ==>
      r == Raised(IptvFailure(MergedPlaylist(urls, load).exc))
      && r.exc in {HttpStatus(BAD_REQUEST), HttpStatus(INTERNAL_SERVER_ERROR)}
    ensures MergedPlaylist(urls, load).Done? ==>
      r == Done(if filtered then CorrectAll(Legacy, channelDict, MergedPlaylist(urls, load).value)
                else MergedPlaylist(urls, load).value)
  {
    var merged, tmpDict := MergeSources(urls, load);
    if merged.Raised? {
      if urls.Some? {
        GatherFailures(PyStr.Split(urls.value, ','), load);
      }
      return Raised(IptvFailure(merged.exc));
    }
    var allChannels := merged.value;
    var plNew := CorrectChannels(Legacy, channelDict, allChannels);
    return if filtered then Done(plNew) else Done(allChannels);
  }

  /** `get_guide`: a failed fetch is a 503 and nothing is rewritten; a
      response that is not XML escapes as a parse error; otherwise every
      display-name whose text is a key gets the table's value, whatever it
      is. */
  method GetGuide(guide: GuideSource, channelDict: GuideTable) returns (r: Outcome<Element>)
    ensures guide.Unreachable? ==> r == Raised(HttpStatus(SERVICE_UNAVAILABLE))
    ensures guide.NotXml? ==> r == Raised(ParseError)
    ensures guide.Document? ==> r == Done(Rewritten(ByKey, channelDict, guide.root))
  {
    match guide {
      case Unreachable =>
        return Raised(HttpStatus(SERVICE_UNAVAILABLE));
      case NotXml =>
        return Raised(ParseError);
      case Document(tree) =>
        var rewritten := RewriteGuide(ByKey, channelDict, tree);
        return Done(rewritten);
    }
  }
}
