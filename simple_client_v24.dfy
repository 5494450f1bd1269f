/** The current web service: the filtered or unfiltered playlist and the
    original or corrected guide, with failures raised as `MyException`
    carrying the HTTP status the route handlers answer with. */
module SimpleClientV24 {
  import opened Outcomes
  import opened Channels
  import opened Correction
  import opened Guide

  /** `get_iptv`: merge the sources; when `filtered`, correct with the
      current corrector, otherwise serve the merged playlist as it is. */
  method GetIptv(urls: Option<string>, filtered: bool, channelDict: Table, load: string -> Load)
    returns (r: Outcome<seq<Channel>>)
    ensures MergedPlaylist(urls, load).Raised? ==>
      r == Raised(IptvFailure(MergedPlaylist(urls, load).exc))
      && r.exc in {HttpStatus(BAD_REQUEST), HttpStatus(INTERNAL_SERVER_ERROR)}
    ensures MergedPlaylist(urls, load).Done? ==>
      r == Done(if filtered then CorrectAll(V24, channelDict, MergedPlaylist(urls, load).value)
                else MergedPlaylist(urls, load).value)
  {
    var merged, tmpDict := MergeSources(urls, load);
    if merged.Raised? {
      if urls.Some? {
        GatherFailures(PyStr.Split(urls.value, ','), load);
      }
      return Raised(IptvFailure(merged.exc));
    }
    var allChannels := merged.value;
    if filtered {
      var plNew := CorrectChannels(V24, channelDict, allChannels);
      return Done(plNew);
    } else {
      return Done(allChannels);
    }
  }

  /** `get_guide`: a guide file that cannot be read or parsed is a 503;
      otherwise the tree is served as read when `original`, or with its
      display-names rewritten where the table gives a non-empty value. */
  method GetGuide(original: bool, guide: GuideSource, channelDict: GuideTable)
    returns (r: Outcome<Element>)
    ensures !guide.Document? ==> r == Raised(HttpStatus(SERVICE_UNAVAILABLE))
    ensures guide.Document? && original ==> r == Done(guide.root)
    ensures guide.Document? && !original ==> r == Done(Rewritten(ByTruthyValue, channelDict, guide.root))
  {
    if !guide.Document? {
      return Raised(HttpStatus(SERVICE_UNAVAILABLE));
    }
    var tree := guide.root;
    if !original {
      tree := RewriteGuide(ByTruthyValue, channelDict, tree);
    }
    return Done(tree);
  }

  /** Two sources `s1` and `s2` both list `BBC1`; the
      entry renames it and sets its group; the filtered playlist is the one
      channel of `s1`, renamed and regrouped, with everything else kept. */
  lemma BbcExample(bbc1: Channel, dup: Channel)
    requires bbc1.name == "BBC1" && dup.name == "BBC1"
    ensures var table := map["BBC1" := Entry(map["name" := "BBC One", "group-title" := "UK"], [], false)];
      CorrectAll(V24, table, Merge([bbc1] + [dup]))
        == [bbc1.(name := "BBC One", attributes := bbc1.attributes["group-title" := "UK"])]
  {
    var table := map["BBC1" := Entry(map["name" := "BBC One", "group-title" := "UK"], [], false)];
    var all := [bbc1] + [dup];
    assert all[..1] == [bbc1];
    assert Merge([bbc1]) == [bbc1] by { assert [bbc1][..0] == []; }
    assert Names([bbc1]) == ["BBC1"];
    assert Merge(all) == [bbc1];
    assert [bbc1][..0] == [];
    var e := table["BBC1"];
    var want := bbc1.attributes["group-title" := "UK"];
    var got := Overridden(bbc1.attributes, e.fields, V24.overrides);
    assert DistinctTargets(V24.overrides);
    assert V24.overrides[2] == ("group-title", "group-title");
    forall a ensures (a in got <==> a in want) && (a in got ==> got[a] == want[a]) {
      OverriddenAt(bbc1.attributes, e.fields, V24.overrides, a);
    }
    assert got == want;
  }

  /** Display-names `ITV` and `Unknown` with
      the table `ITV -> ITV1 HD` become `ITV1 HD` and `Unknown`, with the
      same number of nodes. */
  lemma ItvExample(root: Element)
    requires |root.children| == 1 && root.children[0].tag == ChannelTag
    requires var c := root.children[0];
      |c.children| == 2
      && c.children[0].tag == DisplayNameTag && c.children[0].text == Some("ITV")
      && c.children[1].tag == DisplayNameTag && c.children[1].text == Some("Unknown")
    ensures var r := Rewritten(ByTruthyValue, map["ITV" := Some("ITV1 HD")], root);
      DisplayNames(r) == [Some("ITV1 HD"), Some("Unknown")] && Count(r) == Count(root)
  {
    var table := map["ITV" := Some("ITV1 HD")];
    RewrittenShape(ByTruthyValue, table, root);
    DisplayNamesRewritten(ByTruthyValue, table, root);
    var c := root.children[0];
    var tail := c.children[1..];
    assert tail[0] == c.children[1] && tail[1..] == [];
    assert NamesIn(tail) == [Some("Unknown")] + NamesIn([]);
    assert NamesIn(c.children) == [Some("ITV")] + NamesIn(tail);
    assert root.children[1..] == [];
    assert ChannelNames(root.children) == NamesIn(c.children) + ChannelNames([]);
  }
}
