/** The channel corrector: each merged channel is looked up by its original
    name in the operator's correction table; channels without an entry (and,
    where honoured, disabled ones) are dropped, the others get the fields the
    entry supplies. */
module Correction {
  import opened Channels

  /** One entry of the correction table.  `fields` holds the string-valued
      keys (`name` and the attribute keys); a key that is absent, null or
      empty supplies nothing.  An absent or empty `extras` supplies nothing;
      `disable` is the truth value of the entry's `disable` key. */
  datatype Entry = Entry(fields: map<string, string>, extras: seq<string>, disable: bool)

  type Table = map<string, Entry>

  /** What a variant of the corrector does: which entry key overrides which
      channel attribute, in the order the source tests them, and whether a
      truthy `disable` drops the channel. */
  datatype Capabilities = Capabilities(overrides: seq<(string, string)>, honoursDisable: bool)

  const TvgLogo: string := "tvg-logo"

  /** The current corrector: eight fields, `tvg-logo` included, and `disable`
      honoured.  It writes the `tvg_chno` value to the attribute of that very
      name. */
  const V24: Capabilities := Capabilities(
    [("tvg-name", "tvg-name"), ("tvg-id", "tvg-id"), ("group-title", "group-title"),
     ("tvg-shift", "tvg-shift"), ("tvg_chno", "tvg_chno"), ("tvg-logo", TvgLogo)],
    true)

  /** The earlier correctors: seven fields, no `tvg-logo`, no `disable`.  The
      attribute keys are the values of the playlist library's attribute
      enumeration, which spells the channel number `tvg-chno`. */
  const Legacy: Capabilities := Capabilities(
    [("tvg-name", "tvg-name"), ("tvg-id", "tvg-id"), ("group-title", "group-title"),
     ("tvg-shift", "tvg-shift"), ("tvg_chno", "tvg-chno")],
    false)

  /** Python truthiness of `entry.get(key)` for a string-valued key. */
  predicate Truthy(fields: map<string, string>, key: string) {
    key in fields && fields[key] != ""
  }

  /** No two overrides write the same attribute. */
  predicate DistinctTargets(overrides: seq<(string, string)>) {
    forall i, j :: 0 <= i < j < |overrides| ==> overrides[i].1 != overrides[j].1
  }

  // ---------------------------------------------------------------------
  // One channel

  /** The attribute map after the overrides are tried in order, each one
      writing its attribute only when the entry supplies a truthy value. */
  function Overridden(attrs: map<string, string>, fields: map<string, string>,
                      overrides: seq<(string, string)>): map<string, string>
    decreases |overrides|
  {
    if overrides == [] then attrs
    else
      var (key, attr) := overrides[0];
      Overridden(if Truthy(fields, key) then attrs[attr := fields[key]] else attrs,
                 fields, overrides[1..])
  }

  /** Each attribute is overwritten independently: an attribute some override
      targets gets the entry's value when that value is truthy, and every
      other attribute keeps its presence and its value. */
  lemma {:induction false} OverriddenAt(attrs: map<string, string>, fields: map<string, string>,
                                        overrides: seq<(string, string)>, a: string)
    requires DistinctTargets(overrides)
    ensures forall i :: 0 <= i < |overrides| && overrides[i].1 == a && Truthy(fields, overrides[i].0) ==>
      a in Overridden(attrs, fields, overrides)
      && Overridden(attrs, fields, overrides)[a] == fields[overrides[i].0]
    ensures (forall i :: 0 <= i < |overrides| && overrides[i].1 == a ==> !Truthy(fields, overrides[i].0)) ==>
      (a in Overridden(attrs, fields, overrides) <==> a in attrs)
      && (a in attrs ==> Overridden(attrs, fields, overrides)[a] == attrs[a])
    decreases |overrides|
  {
    if overrides != [] {
      var (key, attr) := overrides[0];
      var attrs' := if Truthy(fields, key) then attrs[attr := fields[key]] else attrs;
      var tail := overrides[1..];
      assert DistinctTargets(tail) by {
        forall i, j | 0 <= i < j < |tail| ensures tail[i].1 != tail[j].1 {
          assert tail[i] == overrides[i + 1] && tail[j] == overrides[j + 1];
        }
      }
      OverriddenAt(attrs', fields, tail, a);
      forall i | 0 < i < |overrides| ensures overrides[i] == tail[i - 1] { }
      if attr == a {
        forall i | 0 < i < |overrides| ensures overrides[i].1 != a {
          assert overrides[0].1 != overrides[i].1;
        }
      }
    }
  }

  /** The copy of channel `c` corrected by entry `e`. */
  function Corrected(caps: Capabilities, e: Entry, c: Channel): Channel {
    c.(name := if Truthy(e.fields, "name") then e.fields["name"] else c.name,
       extras := if e.extras != [] then e.extras else c.extras,
       attributes := Overridden(c.attributes, e.fields, caps.overrides))
  }

  /** The corrected copy: the name and the extras are replaced only by a
      truthy value, url and duration are kept, every attribute an override
      targets with a truthy value gets that value, and every other attribute
      keeps its presence and value. */
  lemma CorrectedFields(caps: Capabilities, e: Entry, c: Channel)
    requires DistinctTargets(caps.overrides)
    ensures var r := Corrected(caps, e, c);
      && r.url == c.url && r.duration == c.duration
      && r.name == (if Truthy(e.fields, "name") then e.fields["name"] else c.name)
      && r.extras == (if e.extras != [] then e.extras else c.extras)
      && (forall i :: 0 <= i < |caps.overrides| && Truthy(e.fields, caps.overrides[i].0) ==>
            caps.overrides[i].1 in r.attributes
            && r.attributes[caps.overrides[i].1] == e.fields[caps.overrides[i].0])
      && (forall a :: (forall i :: 0 <= i < |caps.overrides| && caps.overrides[i].1 == a ==>
                         !Truthy(e.fields, caps.overrides[i].0)) ==>
            (a in r.attributes <==> a in c.attributes)
            && (a in c.attributes ==> r.attributes[a] == c.attributes[a]))
  {
    forall a {
      OverriddenAt(c.attributes, e.fields, caps.overrides, a);
    }
  }

  /** Both correctors write each attribute from one entry key at most. */
  lemma CorrectorsDistinct()
    ensures DistinctTargets(V24.overrides) && DistinctTargets(Legacy.overrides)
  {
  }

  /** Whether channel `c` survives correction. */
  predicate Kept(caps: Capabilities, table: Table, c: Channel) {
    c.name in table && !(caps.honoursDisable && table[c.name].disable)
  }

  /** A partial override keeps untouched fields: an entry that supplies only
      a group title changes that attribute alone. */
  lemma GroupTitleOnly(caps: Capabilities, c: Channel, title: string)
    requires caps == V24 || caps == Legacy
    requires title != ""
    ensures var r := Corrected(caps, Entry(map["group-title" := title], [], false), c);
      && r.name == c.name && r.url == c.url && r.duration == c.duration && r.extras == c.extras
      && "group-title" in r.attributes && r.attributes["group-title"] == title
      && forall a :: a != "group-title" ==>
           (a in r.attributes <==> a in c.attributes)
           && (a in c.attributes ==> r.attributes[a] == c.attributes[a])
  {
    var fields := map["group-title" := title];
    var ovs := caps.overrides;
    assert ovs[2] == ("group-title", "group-title");
    assert forall i :: 0 <= i < |ovs| && ovs[i].0 == "group-title" ==> ovs[i].1 == "group-title";
    assert DistinctTargets(ovs);
    forall a ensures
      (a == "group-title" ==>
         a in Overridden(c.attributes, fields, caps.overrides)
         && Overridden(c.attributes, fields, caps.overrides)[a] == title)
      && (a != "group-title" ==>
         (a in Overridden(c.attributes, fields, caps.overrides) <==> a in c.attributes)
         && (a in c.attributes ==> Overridden(c.attributes, fields, caps.overrides)[a] == c.attributes[a]))
    {
      OverriddenAt(c.attributes, fields, caps.overrides, a);
    }
  }

  /** The earlier correctors never touch a channel's logo. */
  lemma LegacyKeepsLogo(e: Entry, c: Channel)
    ensures TvgLogo in Corrected(Legacy, e, c).attributes <==> TvgLogo in c.attributes
    ensures TvgLogo in c.attributes ==> Corrected(Legacy, e, c).attributes[TvgLogo] == c.attributes[TvgLogo]
  {
    OverriddenAt(c.attributes, e.fields, Legacy.overrides, TvgLogo);
  }

  /** The current corrector does replace the logo when the entry gives one. */
  lemma V24SetsLogo(e: Entry, c: Channel)
    requires Truthy(e.fields, TvgLogo)
    ensures TvgLogo in Corrected(V24, e, c).attributes
    ensures Corrected(V24, e, c).attributes[TvgLogo] == e.fields[TvgLogo]
  {
    OverriddenAt(c.attributes, e.fields, V24.overrides, TvgLogo);
    assert V24.overrides[5] == (TvgLogo, TvgLogo);
  }

  // ---------------------------------------------------------------------
  // The whole playlist

  /** The playlist `pl_new` built from the merged channels `s`. */
  function CorrectAll(caps: Capabilities, table: Table, s: seq<Channel>): seq<Channel> {
    if s == [] then []
    else
      var init := CorrectAll(caps, table, s[..|s| - 1]);
      var c := s[|s| - 1];
      if Kept(caps, table, c) then init + [Corrected(caps, table[c.name], c)] else init
  }

  /** The positions of the channels of `s` that survive correction. */
  function KeptIndices(caps: Capabilities, table: Table, s: seq<Channel>): seq<nat> {
    if s == [] then []
    else
      KeptIndices(caps, table, s[..|s| - 1])
      + (if Kept(caps, table, s[|s| - 1]) then [|s| - 1] else [])
  }

  /** The corrected playlist is, in merge order, the corrected copy of every
      channel that has a table entry (not disabled, where that is honoured)
      and of no other channel. */
  lemma {:induction false} CorrectAllSelects(caps: Capabilities, table: Table, s: seq<Channel>)
    ensures |KeptIndices(caps, table, s)| == |CorrectAll(caps, table, s)| <= |s|
    ensures forall k :: 0 <= k < |KeptIndices(caps, table, s)| ==>
      var i := KeptIndices(caps, table, s)[k];
      i < |s| && Kept(caps, table, s[i])
      && CorrectAll(caps, table, s)[k] == Corrected(caps, table[s[i].name], s[i])
    ensures forall k1, k2 :: 0 <= k1 < k2 < |KeptIndices(caps, table, s)| ==>
      KeptIndices(caps, table, s)[k1] < KeptIndices(caps, table, s)[k2]
    ensures forall i :: 0 <= i < |s| && Kept(caps, table, s[i]) ==> i in KeptIndices(caps, table, s)
  {
    if s != [] {
      var init := s[..|s| - 1];
      CorrectAllSelects(caps, table, init);
      forall i | 0 <= i < |init| ensures init[i] == s[i] { }
    }
  }

  /** A channel whose original name has no entry, or whose entry is disabled
      where that is honoured, contributes nothing to the corrected playlist. */
  lemma DroppedChannels(caps: Capabilities, table: Table, s: seq<Channel>, i: nat)
    requires i < |s| && !Kept(caps, table, s[i])
    ensures i !in KeptIndices(caps, table, s)
  {
    CorrectAllSelects(caps, table, s);
    var idx := KeptIndices(caps, table, s);
    forall k | 0 <= k < |idx| ensures idx[k] != i {
      assert Kept(caps, table, s[idx[k]]);
    }
  }

  /** The earlier correctors ignore `disable`: the corrected playlist
      depends only on which names have entries and what those supply. */
  lemma {:induction false} LegacyIgnoresDisable(table: Table, t: Table, s: seq<Channel>)
    requires table.Keys == t.Keys
    requires forall n :: n in table ==> table[n].fields == t[n].fields && table[n].extras == t[n].extras
    ensures CorrectAll(Legacy, table, s) == CorrectAll(Legacy, t, s)
  {
    if s != [] {
      LegacyIgnoresDisable(table, t, s[..|s| - 1]);
    }
  }

  // ---------------------------------------------------------------------
  // The correction loop

  /** The correction loop: each merged channel is copied, looked up by its
      original name, skipped or corrected field by field, and appended. */
  method CorrectChannels(caps: Capabilities, table: Table, allChannels: seq<Channel>)
    returns (plNew: seq<Channel>)
    ensures plNew == CorrectAll(caps, table, allChannels)
  {
    plNew := [];
    for i := 0 to |allChannels|
      invariant plNew == CorrectAll(caps, table, allChannels[..i])
    {
      assert allChannels[..i + 1][..i] == allChannels[..i];
      var c := allChannels[i];
      if c.name !in table {
        continue;
      }
      var newA := table[c.name];
      if caps.honoursDisable && newA.disable {
        continue;
      }
      if Truthy(newA.fields, "name") {
        c := c.(name := newA.fields["name"]);
      }
      if newA.extras != [] {
        c := c.(extras := newA.extras);
      }
      c := c.(attributes := Overridden(c.attributes, newA.fields, caps.overrides));
      plNew := plNew + [c];
    }
    assert allChannels[..|allChannels|] == allChannels;
  }
}
