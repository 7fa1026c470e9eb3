/**
 * Printing and parsing of zone text: the choice of a standard, daylight or
 * generic display name when printing, and the per-locale prefix tree of zone
 * names (with its cache) that parsing matches against.
 *
 * The prefix tree is modelled by what it maps: each added text to a zone id,
 * where adding a text again replaces the earlier id.
 */
module ZoneText {
  import opened Results

  type Locale = string

  /** Text to zone id; a later add of the same text wins. */
  type PrefixTree = map<string, string>

  /** A row of the locale's zone strings: the zone id followed by its display names. */
  type NameRecord = seq<string>

  datatype TextStyle = Full | Short | Narrow

  datatype NameType = Std | Dst | Generic

  /** A zone as the print context hands it over: a region zone or a fixed offset. */
  datatype ZoneId = Region(id: string) | Offset(id: string)

  /**
   * The collaborators consulted and not modelled: the zone-name provider, the
   * style's name index, the locale's zone strings and the metazone mapping.
   */
  datatype Providers = Providers(
    zoneNames: (string, Locale) -> map<string, string>,
    styleIndex: TextStyle -> string,
    zoneStrings: Locale -> seq<NameRecord>,
    toZid: (string, Locale) -> string)

  /**
   * What formatting reads from its context: the zone (if any), whether the
   * temporal supports instant-seconds, whether the zone's rules put that
   * instant in daylight saving, and the locale.
   */
  datatype PrintContext = PrintContext(
    zone: Option<ZoneId>, supportsInstantSeconds: bool, inDaylightSavings: bool, locale: Locale)

  datatype ParseContext = ParseContext(locale: Locale, caseSensitive: bool)

  /** A cache entry: the region-id count it was built for and the tree, None once reclaimed. */
  datatype CacheEntry = CacheEntry(regionCount: nat, tree: Option<PrefixTree>)

  /** The tree getTree hands back: the parent's id-only tree, or the tree of names. */
  datatype TreeSource = ParentTree | NameTree(tree: PrefixTree)

  // ------------------------------------------------------------ printing

  /** The key suffix under which each kind of name is stored. */
  function Suffix(t: NameType): (s: string)
    ensures |s| == 1
    ensures s == "g" <==> t == Std
    ensures s == "d" <==> t == Dst
    ensures s == "s" <==> t == Generic
  {
    match t
    case Std => "g"
    case Dst => "d"
    case Generic => "s"
  }

  /** The three kinds of name are read from three different keys of the same record. */
  lemma DistinctNameKeys(index: string, a: NameType, b: NameType)
    requires a != b
    ensures index + Suffix(a) != index + Suffix(b)
  {
    assert (index + Suffix(a))[|index|] == Suffix(a)[0];
    assert (index + Suffix(b))[|index|] == Suffix(b)[0];
  }

  /** DST or STD by the daylight answer when the temporal has an instant, GENERIC otherwise. */
  function ChosenType(ctx: PrintContext): (t: NameType)
    ensures t == Generic <==> !ctx.supportsInstantSeconds
    ensures t == Dst <==> ctx.supportsInstantSeconds && ctx.inDaylightSavings
    ensures t == Std <==> ctx.supportsInstantSeconds && !ctx.inDaylightSavings
  {
    if ctx.supportsInstantSeconds then (if ctx.inDaylightSavings then Dst else Std) else Generic
  }

  // ------------------------------------------------------------ building the tree

  /** Position of the first display name in a name record; position 0 holds the zone id. */
  function NameStart(style: TextStyle): nat
  {
    if style == Full then 1 else 2
  }

  predicate Qualifies(r: NameRecord, region: set<string>)
  {
    |r| > 0 && r[0] in region
  }

  /** n is one of the names of r taken from position start on, every second one. */
  predicate NameAt(r: NameRecord, start: nat, n: string)
  {
    exists j :: start <= j < |r| && (j - start) % 2 == 0 && r[j] == n
  }

  /**
   * The names a style reads from a record: never the zone id at position 0;
   * FULL reads positions 1, 3, 5, ... and the other styles 2, 4, 6, ...
   */
  lemma NameStartPositions(r: NameRecord, style: TextStyle, n: string)
    ensures NameAt(r, NameStart(style), n) <==>
      exists j :: 1 <= j < |r| && j % 2 == (if style == Full then 1 else 0) && r[j] == n
  {
  }

  /** Adds the names of r at positions i, i + 2, ... with zone id z. */
  function AddNames(t: PrefixTree, r: NameRecord, i: nat, z: string): PrefixTree
    decreases |r| - i
  {
    if i >= |r| then t else AddNames(t[r[i] := z], r, i + 2, z)
  }

  datatype Pass = Bulk | Preferred

  /** Everything a rebuild depends on besides the records themselves. */
  datatype BuildConfig = BuildConfig(
    region: set<string>, preferred: Option<seq<string>>, start: nat,
    locale: Locale, toZid: (string, Locale) -> string)

  predicate IsPreferred(c: BuildConfig, r: NameRecord)
  {
    Qualifies(r, c.region) && c.preferred.Some? && r[0] in c.preferred.value
  }

  /** Whether a pass, on record r, adds text n. */
  predicate Writes(p: Pass, c: BuildConfig, r: NameRecord, n: string)
  {
    match p
    case Bulk => Qualifies(r, c.region) && (n == r[0] || NameAt(r, c.start, n))
    case Preferred => IsPreferred(c, r) && NameAt(r, c.start, n)
  }

  /** The zone id a pass, on record r, gives text n. */
  function Written(p: Pass, c: BuildConfig, r: NameRecord, n: string): string
    requires Writes(p, c, r, n)
  {
    if p == Bulk && NameAt(r, c.start, n) then c.toZid(r[0], c.locale) else r[0]
  }

  /** One record of a pass. */
  function Step(t: PrefixTree, r: NameRecord, p: Pass, c: BuildConfig): PrefixTree
  {
    match p
    case Bulk =>
      if Qualifies(r, c.region) then AddNames(t[r[0] := r[0]], r, c.start, c.toZid(r[0], c.locale)) else t
    case Preferred =>
      if IsPreferred(c, r) then AddNames(t, r, c.start, r[0]) else t
  }

  /** A pass over the records from index k on. */
  function PassFrom(t: PrefixTree, records: seq<NameRecord>, k: nat, p: Pass, c: BuildConfig): PrefixTree
    requires k <= |records|
    decreases |records| - k
  {
    if k == |records| then t else PassFrom(Step(t, records[k], p, c), records, k + 1, p, c)
  }

  /** The rebuilt tree: the bulk pass, then the preferred zones' pass when there are preferred zones. */
  function Rebuild(records: seq<NameRecord>, c: BuildConfig): PrefixTree
  {
    var bulk := PassFrom(map[], records, 0, Bulk, c);
    if c.preferred.None? then bulk else PassFrom(bulk, records, 0, Preferred, c)
  }

  lemma NameAtStep(r: NameRecord, i: nat, n: string)
    requires i < |r|
    ensures NameAt(r, i, n) <==> r[i] == n || NameAt(r, i + 2, n)
  {
    if NameAt(r, i, n) && r[i] != n {
      var j :| i <= j < |r| && (j - i) % 2 == 0 && r[j] == n;
      assert i + 2 <= j && (j - (i + 2)) % 2 == 0;
    }
    if NameAt(r, i + 2, n) {
      var j :| i + 2 <= j < |r| && (j - (i + 2)) % 2 == 0 && r[j] == n;
      assert (j - i) % 2 == 0;
    }
  }

  /** AddNames adds exactly the names at the chosen positions, each with id z. */
  lemma {:induction false} AddNamesAt(t: PrefixTree, r: NameRecord, i: nat, z: string, n: string)
    ensures n in AddNames(t, r, i, z) <==> n in t || NameAt(r, i, n)
    ensures n in AddNames(t, r, i, z) ==> AddNames(t, r, i, z)[n] == if NameAt(r, i, n) then z else t[n]
    decreases |r| - i
  {
    if i < |r| {
      NameAtStep(r, i, n);
      AddNamesAt(t[r[i] := z], r, i + 2, z, n);
    }
  }

  /** One record changes text n exactly when the pass writes n for it. */
  lemma StepAt(t: PrefixTree, r: NameRecord, p: Pass, c: BuildConfig, n: string)
    ensures n in Step(t, r, p, c) <==> n in t || Writes(p, c, r, n)
    ensures n in Step(t, r, p, c) ==>
      Step(t, r, p, c)[n] == if Writes(p, c, r, n) then Written(p, c, r, n) else t[n]
  {
    if p == Bulk && Qualifies(r, c.region) {
      AddNamesAt(t[r[0] := r[0]], r, c.start, c.toZid(r[0], c.locale), n);
    } else if p == Preferred && IsPreferred(c, r) {
      AddNamesAt(t, r, c.start, r[0], n);
    }
  }

  /** A pass holds a text exactly when it held it before or some remaining record writes it. */
  lemma {:induction false} PassKeys(t: PrefixTree, records: seq<NameRecord>, k: nat, p: Pass, c: BuildConfig, n: string)
    requires k <= |records|
    ensures n in PassFrom(t, records, k, p, c) <==>
      n in t || exists j :: k <= j < |records| && Writes(p, c, records[j], n)
    decreases |records| - k
  {
    if k < |records| {
      StepAt(t, records[k], p, c, n);
      PassKeys(Step(t, records[k], p, c), records, k + 1, p, c, n);
      if exists j :: k <= j < |records| && Writes(p, c, records[j], n) {
        var j :| k <= j < |records| && Writes(p, c, records[j], n);
        assert j == k || (k + 1 <= j < |records| && Writes(p, c, records[j], n));
      }
    }
  }

  /** Records that do not write a text leave its id alone. */
  lemma {:induction false} PassUnwritten(t: PrefixTree, records: seq<NameRecord>, k: nat, p: Pass, c: BuildConfig, n: string)
    requires k <= |records|
    requires n in t
    requires forall j :: k <= j < |records| ==> !Writes(p, c, records[j], n)
    ensures n in PassFrom(t, records, k, p, c) && PassFrom(t, records, k, p, c)[n] == t[n]
    decreases |records| - k
  {
    if k < |records| {
      StepAt(t, records[k], p, c, n);
      PassUnwritten(Step(t, records[k], p, c), records, k + 1, p, c, n);
    }
  }

  /** Last write wins: the id of a text is the one its last writing record gives. */
  lemma {:induction false} PassLastWriter(t: PrefixTree, records: seq<NameRecord>, k: nat, p: Pass, c: BuildConfig,
                                          n: string, j: nat)
    requires k <= j < |records|
    requires Writes(p, c, records[j], n)
    requires forall j' :: j < j' < |records| ==> !Writes(p, c, records[j'], n)
    ensures n in PassFrom(t, records, k, p, c)
    ensures PassFrom(t, records, k, p, c)[n] == Written(p, c, records[j], n)
    decreases |records| - k
  {
    var t' := Step(t, records[k], p, c);
    StepAt(t, records[k], p, c, n);
    if k == j {
      PassUnwritten(t', records, k + 1, p, c, n);
    } else {
      PassLastWriter(t', records, k + 1, p, c, n, j);
    }
  }

  /** When every record that writes a text gives it the same id v, the pass ends with v. */
  lemma {:induction false} PassUniform(t: PrefixTree, records: seq<NameRecord>, k: nat, p: Pass, c: BuildConfig,
                                       n: string, v: string)
    requires k <= |records|
    requires exists j :: k <= j < |records| && Writes(p, c, records[j], n)
    requires forall j :: k <= j < |records| && Writes(p, c, records[j], n) ==> Written(p, c, records[j], n) == v
    ensures n in PassFrom(t, records, k, p, c) && PassFrom(t, records, k, p, c)[n] == v
    decreases |records| - k
  {
    var t' := Step(t, records[k], p, c);
    StepAt(t, records[k], p, c, n);
    if exists j :: k + 1 <= j < |records| && Writes(p, c, records[j], n) {
      PassUniform(t', records, k + 1, p, c, n, v);
    } else {
      PassUnwritten(t', records, k + 1, p, c, n);
    }
  }

  /** The rebuilt tree holds exactly the ids and names of the records whose id is a known region. */
  lemma RebuildKeys(records: seq<NameRecord>, c: BuildConfig, n: string)
    ensures n in Rebuild(records, c) <==> exists j :: 0 <= j < |records| && Writes(Bulk, c, records[j], n)
  {
    var bulk := PassFrom(map[], records, 0, Bulk, c);
    PassKeys(map[], records, 0, Bulk, c, n);
    if c.preferred.Some? {
      PassKeys(bulk, records, 0, Preferred, c, n);
      if exists j :: 0 <= j < |records| && Writes(Preferred, c, records[j], n) {
        var j :| 0 <= j < |records| && Writes(Preferred, c, records[j], n);
        assert Writes(Bulk, c, records[j], n);
      }
    }
  }

  /**
   * A name of a preferred zone looks up to that zone, whatever other zones share
   * it, unless a later preferred zone has the same name.
   */
  lemma RebuildPreferredWins(records: seq<NameRecord>, c: BuildConfig, n: string, j: nat)
    requires j < |records| && IsPreferred(c, records[j]) && NameAt(records[j], c.start, n)
    requires forall j' :: j < j' < |records| ==> !(IsPreferred(c, records[j']) && NameAt(records[j'], c.start, n))
    ensures n in Rebuild(records, c) && Rebuild(records, c)[n] == records[j][0]
  {
    PassLastWriter(PassFrom(map[], records, 0, Bulk, c), records, 0, Preferred, c, n, j);
  }

  /**
   * Without a preferred zone naming a text, the text ends with the id the bulk
   * pass gives it, when every record writing it agrees on that id.
   */
  lemma RebuildBulkValue(records: seq<NameRecord>, c: BuildConfig, n: string, v: string)
    requires exists j :: 0 <= j < |records| && Writes(Bulk, c, records[j], n)
    requires forall j :: 0 <= j < |records| && Writes(Bulk, c, records[j], n) ==> Written(Bulk, c, records[j], n) == v
    requires forall j :: 0 <= j < |records| ==> !Writes(Preferred, c, records[j], n)
    ensures n in Rebuild(records, c) && Rebuild(records, c)[n] == v
  {
    var bulk := PassFrom(map[], records, 0, Bulk, c);
    PassUniform(map[], records, 0, Bulk, c, n, v);
    if c.preferred.Some? {
      PassUnwritten(bulk, records, 0, Preferred, c, n);
    }
  }

  /** A known region id that is nobody's display name maps to itself. */
  lemma RebuildIdMapsToItself(records: seq<NameRecord>, c: BuildConfig, j: nat)
    requires j < |records| && Qualifies(records[j], c.region)
    requires forall k :: 0 <= k < |records| && Qualifies(records[k], c.region) ==> !NameAt(records[k], c.start, records[j][0])
    ensures records[j][0] in Rebuild(records, c) && Rebuild(records, c)[records[j][0]] == records[j][0]
  {
    var n := records[j][0];
    assert Writes(Bulk, c, records[j], n);
    RebuildBulkValue(records, c, n, n);
  }

  // ------------------------------------------------------------ the cache

  /** The cache is rebuilt when it has no entry, its count is stale, or its tree was reclaimed. */
  predicate NeedsRebuild(cache: map<Locale, CacheEntry>, locale: Locale, regionCount: nat)
  {
    locale !in cache || cache[locale].regionCount != regionCount || cache[locale].tree.None?
  }

  /** The two process-wide caches of the source, made an explicit object: case-sensitive and not. */
  class TreeCache {
    var cachedTree: map<Locale, CacheEntry>
    var cachedTreeCI: map<Locale, CacheEntry>

    constructor ()
      ensures cachedTree == map[] && cachedTreeCI == map[]
    {
      cachedTree := map[];
      cachedTreeCI := map[];
    }

    function Entries(caseSensitive: bool): map<Locale, CacheEntry>
      reads this
    {
      if caseSensitive then cachedTree else cachedTreeCI
    }
  }

  /** Collects the ids of the given zones, in order. */
  method CollectIds(zones: seq<ZoneId>) returns (ids: seq<string>)
    ensures |ids| == |zones|
    ensures forall i :: 0 <= i < |zones| ==> ids[i] == zones[i].id
  {
    ids := [];
    for i := 0 to |zones|
      invariant |ids| == i
      invariant forall k :: 0 <= k < i ==> ids[k] == zones[k].id
    {
      ids := ids + [zones[i].id];
    }
  }

  // ------------------------------------------------------------ the printer-parser

  class ZoneTextPrinterParser {
    const textStyle: TextStyle
    /** The ids of the preferred zones, in the order given; None when none were given. */
    const preferredZones: Option<seq<string>>

    constructor (textStyle: TextStyle, preferred: Option<seq<ZoneId>>)
      ensures this.textStyle == textStyle
      ensures preferred.None? || |preferred.value| == 0 ==> preferredZones.None?
      ensures preferred.Some? && |preferred.value| > 0 ==>
        preferredZones.Some? && |preferredZones.value| == |preferred.value| &&
        forall i :: 0 <= i < |preferred.value| ==> preferredZones.value[i] == preferred.value[i].id
    {
      this.textStyle := textStyle;
      if preferred.Some? && |preferred.value| != 0 {
        var ids := CollectIds(preferred.value);
        preferredZones := Some(ids);
      } else {
        preferredZones := None;
      }
    }

    /**
     * The display name of a zone for a kind of name: none in the narrow style,
     * otherwise the provider's entry under the style's index and the kind's suffix.
     */
    function GetDisplayName(id: string, nameType: NameType, locale: Locale, p: Providers): (r: Option<string>)
      ensures textStyle == Narrow ==> r == None
      ensures textStyle != Narrow ==>
        var names := p.zoneNames(id, locale);
        var key := p.styleIndex(textStyle) + Suffix(nameType);
        (r.Some? <==> key in names) && (r.Some? ==> r.value == names[key])
    {
      if textStyle == Narrow then None
      else
        var names := p.zoneNames(id, locale);
        var key := p.styleIndex(textStyle) + Suffix(nameType);
        if key in names then Some(names[key]) else None
    }

    /**
     * Appends the zone's text to buf: the display name chosen by ChosenType for
     * a region zone, the bare id for an offset or when no name is found. No zone:
     * nothing is appended and the result is false.
     */
    method Format(ctx: PrintContext, p: Providers, buf: string) returns (ok: bool, out: string)
      ensures ok <==> ctx.zone.Some?
      ensures !ok ==> out == buf
      ensures ok ==> |out| >= |buf| && out[..|buf|] == buf
      ensures ok && (ctx.zone.value.Offset? || textStyle == Narrow) ==> out[|buf|..] == ctx.zone.value.id
      ensures ok && ctx.zone.value.Region? ==>
        var name := GetDisplayName(ctx.zone.value.id, ChosenType(ctx), ctx.locale, p);
        out[|buf|..] == if name.Some? then name.value else ctx.zone.value.id
    {
      if ctx.zone.None? {
        return false, buf;
      }
      var zone := ctx.zone.value;
      var zname := zone.id;
      if !zone.Offset? {
        var name := GetDisplayName(zname, ChosenType(ctx), ctx.locale, p);
        if name.Some? {
          zname := name.value;
        }
      }
      out := buf + zname;
      assert out[|buf|..] == zname;
      ok := true;
    }

    function Config(regionIds: set<string>, locale: Locale, toZid: (string, Locale) -> string): BuildConfig
    {
      BuildConfig(regionIds, preferredZones, NameStart(textStyle), locale, toZid)
    }

    /** Builds the tree of the locale's zone names: the bulk pass, then the preferred zones again. */
    method BuildTree(records: seq<NameRecord>, regionIds: set<string>, locale: Locale,
                     toZid: (string, Locale) -> string) returns (tree: PrefixTree)
      ensures tree == Rebuild(records, Config(regionIds, locale, toZid))
    {
      var c := Config(regionIds, locale, toZid);
      tree := map[];
      var k := 0;
      while k < |records|
        invariant k <= |records|
        invariant PassFrom(tree, records, k, Bulk, c) == PassFrom(map[], records, 0, Bulk, c)
      {
        var names := records[k];
        ghost var target := Step(tree, names, Bulk, c);
        if |names| > 0 && names[0] in regionIds {
          var zid := names[0];
          tree := tree[zid := zid];
          var z := toZid(zid, locale);
          var i := NameStart(textStyle);
          while i < |names|
            invariant AddNames(tree, names, i, z) == target
            decreases |names| - i
          {
            tree := tree[names[i] := z];
            i := i + 2;
          }
        }
        k := k + 1;
      }
      if preferredZones.Some? {
        var preferred := preferredZones.value;
        ghost var bulk := tree;
        k := 0;
        while k < |records|
          invariant k <= |records|
          invariant PassFrom(tree, records, k, Preferred, c) == PassFrom(bulk, records, 0, Preferred, c)
        {
          var names := records[k];
          ghost var target := Step(tree, names, Preferred, c);
          if |names| > 0 && names[0] in preferred && names[0] in regionIds {
            var zid := names[0];
            var i := NameStart(textStyle);
            while i < |names|
              invariant AddNames(tree, names, i, zid) == target
              decreases |names| - i
            {
              tree := tree[names[i] := zid];
              i := i + 2;
            }
          }
          k := k + 1;
        }
      }
    }

    /**
     * The tree parsing matches against. The narrow style defers to the parent's
     * id-only tree. Otherwise the cached tree of the locale is returned unless it
     * is missing, was built for another region-id count or was reclaimed; then a
     * new tree is built and cached with the current count.
     */
    method GetTree(cache: TreeCache, ctx: ParseContext, p: Providers, regionIds: set<string>) returns (res: TreeSource)
      modifies cache
      ensures textStyle == Narrow ==> res == ParentTree && unchanged(cache)
      ensures textStyle != Narrow ==>
        var before := old(cache.Entries(ctx.caseSensitive));
        if NeedsRebuild(before, ctx.locale, |regionIds|) then
          var tree := Rebuild(p.zoneStrings(ctx.locale), Config(regionIds, ctx.locale, p.toZid));
          res == NameTree(tree) &&
          cache.Entries(ctx.caseSensitive) == before[ctx.locale := CacheEntry(|regionIds|, Some(tree))]
        else
          res == NameTree(before[ctx.locale].tree.value) && cache.Entries(ctx.caseSensitive) == before
      ensures cache.Entries(!ctx.caseSensitive) == old(cache.Entries(!ctx.caseSensitive))
    {
      if textStyle == Narrow {
        return ParentTree;
      }
      var locale := ctx.locale;
      var regionIdsSize := |regionIds|;
      var cached := if ctx.caseSensitive then cache.cachedTree else cache.cachedTreeCI;
      if NeedsRebuild(cached, locale, regionIdsSize) {
        var tree := BuildTree(p.zoneStrings(locale), regionIds, locale, p.toZid);
        var entry := CacheEntry(regionIdsSize, Some(tree));
        if ctx.caseSensitive {
          cache.cachedTree := cache.cachedTree[locale := entry];
        } else {
          cache.cachedTreeCI := cache.cachedTreeCI[locale := entry];
        }
        res := NameTree(tree);
      } else {
        res := NameTree(cached[locale].tree.value);
      }
    }
  }
}
