/** The first stand-alone guide script: fetch the guide, rewrite its
    display-names with a key lookup, serve it. */
module EpgExtractor {
  import opened Outcomes
  import opened Guide

  /** `main`: a failed fetch or failed status exits before any rewrite; a
      response that is not XML escapes as a parse error. */
  method Extract(guide: GuideSource, channelDict: GuideTable) returns (r: Outcome<Element>)
    ensures guide.Unreachable? ==> r == Raised(SystemExit)
    ensures guide.NotXml? ==> r == Raised(ParseError)
    ensures guide.Document? ==> r == Done(Rewritten(ByKey, channelDict, guide.root))
  {
    if guide.Unreachable? {
      return Raised(SystemExit);
    }
    if guide.NotXml? {
      return Raised(ParseError);
    }
    var tree := RewriteGuide(ByKey, channelDict, guide.root);
    return Done(tree);
  }
}
