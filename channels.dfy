/** The playlist merger: channels read from an ordered list of sources are
    merged first come, first served, so that each name is kept once, with
    the channel that carried it first. */
module Channels {
  import opened Outcomes
  import PyStr

  /** An M3U channel as the playlist library holds it.  `extras` are the
      auxiliary tag lines kept verbatim. */
  datatype Channel = Channel(
    name: string,
    url: string,
    duration: string,
    attributes: map<string, string>,
    extras: seq<string>)

  /** Loading one playlist source: its channels in document order, or the
      library's `MalformedPlaylistException`. */
  datatype Load = Loaded(channels: seq<Channel>) | Malformed

  function Names(s: seq<Channel>): seq<string> {
    seq(|s|, i requires 0 <= i < |s| => s[i].name)
  }

  function NameSet(s: seq<Channel>): set<string> {
    set i | 0 <= i < |s| :: s[i].name
  }

  predicate DistinctNames(s: seq<Channel>) {
    forall i, j :: 0 <= i < j < |s| ==> s[i].name != s[j].name
  }

  // ---------------------------------------------------------------------
  // The merge, as a function of all channels read, in reading order

  /** The playlist `pl_add` after the channels `all` have been offered to it
      one by one: a channel is appended when its name is not yet listed. */
  function Merge(all: seq<Channel>): seq<Channel> {
    if all == [] then []
    else
      var m := Merge(all[..|all| - 1]);
      var c := all[|all| - 1];
      if c.name in Names(m) then m else m + [c]
  }

  /** Position `i` is the first that carries its name. */
  predicate FirstAt(all: seq<Channel>, i: nat)
    requires i < |all|
  {
    forall j :: 0 <= j < i ==> all[j].name != all[i].name
  }

  /** The positions of `all` that are first for their name, in order. */
  function FirstIndices(all: seq<Channel>): seq<nat> {
    if all == [] then []
    else FirstIndices(all[..|all| - 1]) + (if FirstAt(all, |all| - 1) then [|all| - 1] else [])
  }

  /** The merged playlist lists exactly the names read, each once. */
  lemma {:induction false} MergeNames(all: seq<Channel>)
    ensures NameSet(Merge(all)) == NameSet(all)
    ensures forall n :: n in Names(Merge(all)) <==> n in NameSet(all)
    ensures DistinctNames(Merge(all))
  {
    if all != [] {
      var init := all[..|all| - 1];
      var c := all[|all| - 1];
      MergeNames(init);
      assert all == init + [c];
      assert NameSet(all) == NameSet(init) + {c.name};
      var m := Merge(init);
      InNames(m, c.name);
      if c.name !in Names(m) {
        NameSetSnoc(m, c);
      }
      forall n ensures n in Names(Merge(all)) <==> n in NameSet(all) {
        InNames(Merge(all), n);
      }
    }
  }

  lemma NameSetSnoc(s: seq<Channel>, c: Channel)
    ensures NameSet(s + [c]) == NameSet(s) + {c.name}
  {
    var t := s + [c];
    forall n | n in NameSet(t) ensures n in NameSet(s) + {c.name} {
      var i :| 0 <= i < |t| && t[i].name == n;
      if i < |s| { assert s[i] == t[i]; }
    }
    forall n | n in NameSet(s) ensures n in NameSet(t) {
      var i :| 0 <= i < |s| && s[i].name == n;
      assert t[i] == s[i];
    }
    assert t[|s|] == c;
  }

  lemma InNames(s: seq<Channel>, n: string)
    ensures n in Names(s) <==> n in NameSet(s)
  {
    if n in NameSet(s) {
      var i :| 0 <= i < |s| && s[i].name == n;
      assert Names(s)[i] == n;
    }
  }

  /** The merged playlist holds the channels found at the first position of
      each name, and only those, in the order they were read: first source
      before later sources, earlier in a document before later. */
  lemma {:induction false} MergeIsFirstOccurrences(all: seq<Channel>)
    ensures |FirstIndices(all)| == |Merge(all)|
    ensures forall k :: 0 <= k < |FirstIndices(all)| ==>
      FirstIndices(all)[k] < |all| && FirstAt(all, FirstIndices(all)[k])
      && Merge(all)[k] == all[FirstIndices(all)[k]]
    ensures forall k1, k2 :: 0 <= k1 < k2 < |FirstIndices(all)| ==>
      FirstIndices(all)[k1] < FirstIndices(all)[k2]
    ensures forall i :: 0 <= i < |all| && FirstAt(all, i) ==> i in FirstIndices(all)
  {
    if all != [] {
      var n := |all| - 1;
      var init := all[..n];
      var c := all[n];
      MergeIsFirstOccurrences(init);
      MergeNames(init);
      forall i | 0 <= i < n ensures FirstAt(init, i) <==> FirstAt(all, i) {
        assert forall j :: 0 <= j <= i ==> init[j] == all[j];
      }
      assert c.name in NameSet(init) <==> !FirstAt(all, n) by {
        if c.name in NameSet(init) {
          var j :| 0 <= j < |init| && init[j].name == c.name;
          assert all[j].name == c.name;
        }
        if !FirstAt(all, n) {
          var j :| 0 <= j < n && all[j].name == c.name;
          assert init[j].name == c.name;
        }
      }
    }
  }

  /** Channels whose names were all read before change nothing. */
  lemma {:induction false} MergeAbsorbs(a: seq<Channel>, b: seq<Channel>)
    requires forall j :: 0 <= j < |b| ==> b[j].name in NameSet(a)
    ensures Merge(a + b) == Merge(a)
  {
    if b == [] {
      assert a + b == a;
    } else {
      var b' := b[..|b| - 1];
      MergeAbsorbs(a, b');
      MergeNames(a);
      assert (a + b)[..|a + b| - 1] == a + b';
      assert (a + b)[|a + b| - 1] == b[|b| - 1];
    }
  }

  /** A playlist without repeated names is its own merge. */
  lemma {:induction false} MergeOfDistinct(s: seq<Channel>)
    requires DistinctNames(s)
    ensures Merge(s) == s
  {
    if s != [] {
      var init := s[..|s| - 1];
      MergeOfDistinct(init);
      MergeNames(init);
      assert s[|s| - 1].name !in NameSet(init);
      assert init + [s[|s| - 1]] == s;
    }
  }

  /** Reading a source twice gives the same playlist as reading it once. */
  lemma MergeRepeated(s: seq<Channel>)
    ensures Merge(s + s) == Merge(s)
  {
    MergeAbsorbs(s, s);
  }

  /** First source wins: a channel that is the first of its name in source
      `s1` is the one merged from `s1` followed by `s2`, whatever `s2`
      holds under the same name. */
  lemma FirstSourceWins(s1: seq<Channel>, s2: seq<Channel>, i: nat)
    requires i < |s1| && FirstAt(s1, i)
    ensures s1[i] in Merge(s1 + s2)
    ensures forall c :: c in Merge(s1 + s2) && c.name == s1[i].name ==> c == s1[i]
  {
    var all := s1 + s2;
    assert all[i] == s1[i];
    assert FirstAt(all, i) by {
      assert forall j :: 0 <= j < i ==> all[j] == s1[j];
    }
    MergeIsFirstOccurrences(all);
    MergeNames(all);
    var idx := FirstIndices(all);
    var k :| 0 <= k < |idx| && idx[k] == i;
    var m := Merge(all);
    assert m[k] == s1[i];
    forall c | c in m && c.name == s1[i].name ensures c == s1[i] {
      var k' :| 0 <= k' < |m| && m[k'] == c;
      assert m[k'].name == m[k].name;
      assert k' == k;
    }
  }

  /** With distinct names, the set of names is as large as the playlist. */
  lemma {:induction false} DistinctNameCount(s: seq<Channel>)
    requires DistinctNames(s)
    ensures |NameSet(s)| == |s|
  {
    if s != [] {
      var init := s[..|s| - 1];
      DistinctNameCount(init);
      assert NameSet(s) == NameSet(init) + {s[|s| - 1].name};
      assert s[|s| - 1].name !in NameSet(init);
    }
  }

  // ---------------------------------------------------------------------
  // Reading the sources named by the URL setting

  /** The channels of the sources named by `pieces`, in order, loading each
      piece's first white-space separated token; the first piece without a
      token and the first malformed source end the reading. */
  function Gather(pieces: seq<string>, load: string -> Load): Outcome<seq<Channel>> {
    if pieces == [] then Done([])
    else
      var words := PyStr.Words(pieces[0]);
      if words == [] then Raised(IndexError)
      else
        match load(words[0])
        case Malformed => Raised(MalformedPlaylist)
        case Loaded(chs) => Prefixed(chs, Gather(pieces[1..], load))
  }

  function Prefixed(chs: seq<Channel>, o: Outcome<seq<Channel>>): Outcome<seq<Channel>> {
    match o
    case Done(rest) => Done(chs + rest)
    case Raised(e) => Raised(e)
  }

  lemma PrefixedTwice(a: seq<Channel>, b: seq<Channel>, o: Outcome<seq<Channel>>)
    ensures Prefixed(a, Prefixed(b, o)) == Prefixed(a + b, o)
  {
    if o.Done? {
      assert a + (b + o.value) == (a + b) + o.value;
    }
  }

  /** The merged playlist read from a comma-separated URL setting, or the
      exception that ended the reading. */
  function MergedPlaylist(urls: Option<string>, load: string -> Load): Outcome<seq<Channel>> {
    match urls
    case None => Raised(AttributeError)
    case Some(u) =>
      match Gather(PyStr.Split(u, ','), load)
      case Done(all) => Done(Merge(all))
      case Raised(e) => Raised(e)
  }

  /** Reading fails only by the three exceptions the web variants catch. */
  lemma {:induction false} GatherFailures(pieces: seq<string>, load: string -> Load)
    ensures Gather(pieces, load).Raised? ==>
      Gather(pieces, load).exc == IndexError || Gather(pieces, load).exc == MalformedPlaylist
  {
    if pieces != [] {
      GatherFailures(pieces[1..], load);
    }
  }

  /** The web variants' `except` clauses: a missing URL string or a piece
      without a token is a bad request, a malformed source a server error. */
  function IptvFailure(e: Exception): Exception {
    match e
    case AttributeError => HttpStatus(BAD_REQUEST)
    case IndexError => HttpStatus(BAD_REQUEST)
    case MalformedPlaylist => HttpStatus(INTERNAL_SERVER_ERROR)
    case _ => e
  }

  /** A missing URL string, or a first piece without a token, is a bad
      request; so is any blank piece unless an earlier source is malformed. */
  lemma BadRequests(urls: Option<string>, load: string -> Load)
    ensures urls.None? ==> IptvFailure(MergedPlaylist(urls, load).exc) == HttpStatus(BAD_REQUEST)
    ensures urls.Some? && PyStr.AllSpace(PyStr.Split(urls.value, ',')[0]) ==>
      MergedPlaylist(urls, load) == Raised(IndexError)
    ensures urls.Some? && (exists i :: 0 <= i < |PyStr.Split(urls.value, ',')|
                                     && PyStr.AllSpace(PyStr.Split(urls.value, ',')[i])) ==>
      MergedPlaylist(urls, load).Raised?
      && IptvFailure(MergedPlaylist(urls, load).exc) in {HttpStatus(BAD_REQUEST), HttpStatus(INTERNAL_SERVER_ERROR)}
  {
    if urls.Some? {
      var pieces := PyStr.Split(urls.value, ',');
      PyStr.WordsShape(pieces[0]);
      GatherFailures(pieces, load);
      if exists i :: 0 <= i < |pieces| && PyStr.AllSpace(pieces[i]) {
        var i :| 0 <= i < |pieces| && PyStr.AllSpace(pieces[i]);
        BlankPieceFails(pieces, load, i);
      }
    }
  }

  /** A piece with no token makes the reading fail, whatever follows it. */
  lemma {:induction false} BlankPieceFails(pieces: seq<string>, load: string -> Load, i: nat)
    requires i < |pieces| && PyStr.AllSpace(pieces[i])
    ensures Gather(pieces, load).Raised?
  {
    PyStr.WordsShape(pieces[0]);
    if i > 0 && PyStr.Words(pieces[0]) != [] {
      BlankPieceFails(pieces[1..], load, i - 1);
    }
  }

  /** Only the first token of a piece names its source: white space before
      it and anything after the white space that ends it are ignored. */
  lemma PieceToken(lead: string, token: string, rest: string, load: string -> Load)
    requires PyStr.AllSpace(lead) && token != [] && PyStr.NoSpace(token)
    requires rest == [] || PyStr.IsSpace(rest[0])
    ensures Gather([lead + token + rest], load) == Gather([token], load)
  {
    PyStr.FirstWord(lead, token, rest);
    PyStr.FirstWord("", token, "");
    assert "" + token + "" == token;
  }

  /** Naming one source twice gives the playlist of naming it once. */
  lemma RepeatedSource(u: string, load: string -> Load)
    requires PyStr.Free(u, ',')
    ensures MergedPlaylist(Some(u + "," + u), load) == MergedPlaylist(Some(u), load)
  {
    PyStr.SplitJoin([u, u], ',');
    PyStr.SplitFree(u, ',');
    assert PyStr.Join([u, u], ',') == u + "," + u;
    var pieces := [u, u];
    assert pieces[1..] == [u];
    var words := PyStr.Words(u);
    if words != [] && load(words[0]).Loaded? {
      var chs := load(words[0]).channels;
      assert Gather([u], load) == Done(chs + []);
      assert Gather(pieces, load) == Done(chs + (chs + []));
      assert chs + [] == chs;
      MergeRepeated(chs);
    }
  }

  // ---------------------------------------------------------------------
  // The merge loop

  /** The inner loop of the merge: offer the channels `chs` of one source,
      in document order, to the playlist merged from the channels `seen`. */
  method AddChannels(plAdd: seq<Channel>, channelList: seq<string>, tmpDict: set<string>,
                     chs: seq<Channel>, ghost seen: seq<Channel>)
    returns (plAdd': seq<Channel>, channelList': seq<string>, tmpDict': set<string>)
    requires plAdd == Merge(seen) && channelList == Names(plAdd) && tmpDict == NameSet(seen)
    ensures plAdd' == Merge(seen + chs) && channelList' == Names(plAdd')
    ensures tmpDict' == NameSet(seen + chs)
  {
    plAdd', channelList', tmpDict' := plAdd, channelList, tmpDict;
    var j := 0;
    assert seen + chs[..j] == seen;
    while j < |chs|
      invariant 0 <= j <= |chs|
      invariant plAdd' == Merge(seen + chs[..j])
      invariant channelList' == Names(plAdd')
      invariant tmpDict' == NameSet(seen + chs[..j])
    {
      var channel := chs[j];
      ghost var before := seen + chs[..j];
      assert (seen + chs[..j + 1])[..|before|] == before;
      assert seen + chs[..j + 1] == before + [channel];
      NameSetSnoc(before, channel);
      tmpDict' := tmpDict' + {channel.name};
      if channel.name !in channelList' {
        channelList' := channelList' + [channel.name];
        plAdd' := plAdd' + [channel];
      }
      j := j + 1;
    }
    assert chs[..|chs|] == chs;
  }

  /** The reading and merging loop of the playlist functions.  `tmpDict` is
      the key set of the dictionary they log the read channel count from. */
  method MergeSources(urls: Option<string>, load: string -> Load)
    returns (r: Outcome<seq<Channel>>, tmpDict: set<string>)
    ensures r == MergedPlaylist(urls, load)
    ensures r.Done? ==> tmpDict == NameSet(r.value) && |tmpDict| == |r.value|
  {
    tmpDict := {};
    if urls.None? {
      return Raised(AttributeError), tmpDict;
    }
    var pieces := PyStr.Split(urls.value, ',');
    var plAdd: seq<Channel> := [];
    var channelList: seq<string> := [];
    ghost var consumed: seq<Channel> := [];
    var p := 0;
    assert pieces[p..] == pieces;
    assert Prefixed(consumed, Gather(pieces, load)) == Gather(pieces, load) by {
      if Gather(pieces, load).Done? { assert [] + Gather(pieces, load).value == Gather(pieces, load).value; }
    }
    while p < |pieces|
      invariant 0 <= p <= |pieces|
      invariant plAdd == Merge(consumed)
      invariant channelList == Names(plAdd)
      invariant tmpDict == NameSet(consumed)
      invariant Gather(pieces, load) == Prefixed(consumed, Gather(pieces[p..], load))
    {
      assert pieces[p..][1..] == pieces[p + 1..];
      var words := PyStr.Words(pieces[p]);
      if words == [] {
        return Raised(IndexError), tmpDict;
      }
      var loaded := load(words[0]);
      if loaded.Malformed? {
        return Raised(MalformedPlaylist), tmpDict;
      }
      var chs := loaded.channels;
      plAdd, channelList, tmpDict := AddChannels(plAdd, channelList, tmpDict, chs, consumed);
      PrefixedTwice(consumed, chs, Gather(pieces[p + 1..], load));
      consumed := consumed + chs;
      p := p + 1;
    }
    assert Gather(pieces[p..], load) == Done([]);
    assert consumed + [] == consumed;
    MergeNames(consumed);
    DistinctNameCount(plAdd);
    r := Done(plAdd);
  }
}
