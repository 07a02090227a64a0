/** `Cloner_Setup`: the activation guard, the network settings record and
    the list of post types offered on the settings page. */
module Setup {
  import opened Common

  // ---------------------------------------------------------------------------
  // Post-type labels (get_all_cpts)

  /** An ordered slug-to-label array. */
  type Labels = seq<(string, string)>

  function Slugs(l: Labels): set<string> {
    set p | p in l :: p.0
  }

  predicate UniqueSlugs(l: Labels) {
    forall i, j :: 0 <= i < j < |l| ==> l[i].0 != l[j].0
  }

  /** The label the first entry with `slug` carries. */
  function First(l: Labels, slug: string): (r: Option<string>)
    ensures r.Some? <==> slug in Slugs(l)
  {
    if l == [] then None
    else if l[0].0 == slug then Some(l[0].1)
    else
      assert Slugs(l) == {l[0].0} + Slugs(l[1..]) by {
        assert l == [l[0]] + l[1..];
      }
      First(l[1..], slug)
  }

  lemma SlugsAppend(a: Labels, b: Labels)
    ensures Slugs(a + b) == Slugs(a) + Slugs(b)
  {
    assert forall p :: p in a + b <==> p in a || p in b;
  }

  lemma {:induction false} FirstAppend(a: Labels, b: Labels, slug: string)
    ensures First(a + b, slug) == if slug in Slugs(a) then First(a, slug) else First(b, slug)
  {
    if a == [] {
      assert a + b == b;
    } else {
      assert (a + b)[0] == a[0];
      assert (a + b)[1..] == a[1..] + b;
      FirstAppend(a[1..], b, slug);
      assert Slugs(a) == {a[0].0} + Slugs(a[1..]) by {
        assert a == [a[0]] + a[1..];
      }
    }
  }

  /** One step of the inner loop: a slug already present keeps its label. */
  function AddType(acc: Labels, t: (string, string)): (r: Labels)
    ensures t.0 in Slugs(acc) ==> r == acc
    ensures t.0 !in Slugs(acc) ==> r == acc + [t]
  {
    if t.0 in Slugs(acc) then acc else acc + [t]
  }

  /** The inner loop over one site's post types. */
  function AddTypes(acc: Labels, types: Labels): (r: Labels)
    ensures |acc| <= |r| && r[..|acc|] == acc
    ensures UniqueSlugs(acc) ==> UniqueSlugs(r)
    decreases |types|
  {
    if types == [] then acc
    else
      var prev := AddTypes(acc, types[..|types| - 1]);
      var t := types[|types| - 1];
      assert t.0 !in Slugs(prev) ==> forall i :: 0 <= i < |prev| ==> prev[i].0 != t.0 by {
        if t.0 !in Slugs(prev) {
          forall i | 0 <= i < |prev| ensures prev[i].0 != t.0 {
            assert prev[i] in prev;
          }
        }
      }
      AddType(prev, t)
  }

  /** Adding post types keeps the first label of every slug, across both lists. */
  lemma {:induction false} AddTypesFirst(acc: Labels, types: Labels, slug: string)
    ensures First(AddTypes(acc, types), slug) == First(acc + types, slug)
    ensures Slugs(AddTypes(acc, types)) == Slugs(acc + types)
    decreases |types|
  {
    if types == [] {
      assert acc + types == acc;
    } else {
      var init := types[..|types| - 1];
      var t := types[|types| - 1];
      var prev := AddTypes(acc, init);
      AddTypesFirst(acc, init, slug);
      assert acc + types == (acc + init) + [t];
      FirstAppend(acc + init, [t], slug);
      SlugsAppend(acc + init, [t]);
      if t.0 !in Slugs(prev) {
        FirstAppend(prev, [t], slug);
        SlugsAppend(prev, [t]);
      }
    }
  }

  /** The two built-in types, always listed first. */
  const BaseCpts: Labels := [("post", "Post"), ("page", "Page")]

  /** Every public custom post type registered on the given sites, in order. */
  function Registered(sites: seq<Id>, postTypes: Id -> Labels): Labels
    decreases |sites|
  {
    if sites == [] then []
    else Registered(sites[..|sites| - 1], postTypes) + postTypes(sites[|sites| - 1])
  }

  /** The outer loop over the sites. */
  function Merged(sites: seq<Id>, postTypes: Id -> Labels): (r: Labels)
    ensures |r| >= 2 && r[..2] == BaseCpts
    ensures UniqueSlugs(r)
    decreases |sites|
  {
    if sites == [] then BaseCpts
    else
      var prev := Merged(sites[..|sites| - 1], postTypes);
      var r := AddTypes(prev, postTypes(sites[|sites| - 1]));
      assert r[..2] == r[..|prev|][..2];
      r
  }

  /** The sites that are scanned: all of them when none are given. */
  function SitesToScan(sites: seq<Id>, allSites: seq<Id>): (r: seq<Id>)
    ensures sites == [] ==> r == allSites
    ensures sites != [] ==> r == sites
  {
    if sites == [] then allSites else sites
  }

  /** What `get_all_cpts` returns. */
  function AllCpts(sites: seq<Id>, allSites: seq<Id>, postTypes: Id -> Labels): Labels {
    Merged(SitesToScan(sites, allSites), postTypes)
  }

  /** One outer step keeps the first-wins reading: `prev` reads like `before`. */
  lemma SiteStepFirst(prev: Labels, before: Labels, types: Labels, slug: string)
    requires First(prev, slug) == First(before, slug) && Slugs(prev) == Slugs(before)
    ensures First(AddTypes(prev, types), slug) == First(before + types, slug)
    ensures Slugs(AddTypes(prev, types)) == Slugs(before + types)
  {
    AddTypesFirst(prev, types, slug);
    FirstAppend(prev, types, slug);
    FirstAppend(before, types, slug);
    SlugsAppend(prev, types);
    SlugsAppend(before, types);
  }

  /** The merged list is the first-wins reading of the built-ins followed by
      every site's registrations. */
  lemma {:induction false} MergedFirst(sites: seq<Id>, postTypes: Id -> Labels, slug: string)
    ensures First(Merged(sites, postTypes), slug) == First(BaseCpts + Registered(sites, postTypes), slug)
    ensures Slugs(Merged(sites, postTypes)) == Slugs(BaseCpts + Registered(sites, postTypes))
    decreases |sites|
  {
    if sites == [] {
      assert BaseCpts + [] == BaseCpts;
    } else {
      var init := sites[..|sites| - 1];
      var types := postTypes(sites[|sites| - 1]);
      var prev := Merged(init, postTypes);
      var before := BaseCpts + Registered(init, postTypes);
      assert Merged(sites, postTypes) == AddTypes(prev, types);
      assert BaseCpts + Registered(sites, postTypes) == before + types by {
        assert Registered(sites, postTypes) == Registered(init, postTypes) + types;
      }
      MergedFirst(init, postTypes, slug);
      SiteStepFirst(prev, before, types, slug);
    }
  }

  /** `get_all_cpts`: post and page come first with their own labels, every
      slug registered on a scanned site is listed once, and its label is the
      one from the first scanned site that registered it. */
  lemma AllCptsLabels(sites: seq<Id>, allSites: seq<Id>, postTypes: Id -> Labels, slug: string)
    ensures var r := AllCpts(sites, allSites, postTypes);
      && r[..2] == BaseCpts
      && UniqueSlugs(r)
      && (slug in Slugs(r) <==> slug == "post" || slug == "page" || slug in Slugs(Registered(SitesToScan(sites, allSites), postTypes)))
      && (slug != "post" && slug != "page" ==> First(r, slug) == First(Registered(SitesToScan(sites, allSites), postTypes), slug))
  {
    var scan := SitesToScan(sites, allSites);
    var reg := Registered(scan, postTypes);
    var r := Merged(scan, postTypes);
    MergedFirst(scan, postTypes, slug);
    BaseSlugs();
    assert slug in Slugs(r) <==> slug == "post" || slug == "page" || slug in Slugs(reg) by {
      SlugsAppend(BaseCpts, reg);
    }
    assert slug != "post" && slug != "page" ==> First(r, slug) == First(reg, slug) by {
      FirstAppend(BaseCpts, reg, slug);
    }
  }

  lemma BaseSlugs()
    ensures Slugs(BaseCpts) == {"post", "page"}
  {
    assert BaseCpts[0] in BaseCpts && BaseCpts[1] in BaseCpts;
  }

  // ---------------------------------------------------------------------------
  // Settings record (save_admin_settings)

  /** The posted settings form; `None` for a field that was not sent. */
  datatype Form = Form(relatedSites: Option<seq<string>>, mainSite: Option<string>, enabledCpts: Option<seq<string>>)

  /** The 'cty_cloner_options' record: exactly these three keys. */
  datatype Options = Options(relatedSites: seq<string>, mainSite: string, enabledCpts: seq<string>)

  const OptionName := "cty_cloner_options"

  function SanitizeAll(xs: seq<string>, sanitize: string -> string): (r: seq<string>)
    ensures |r| == |xs| && forall i :: 0 <= i < |xs| ==> r[i] == sanitize(xs[i])
  {
    seq(|xs|, i requires 0 <= i < |xs| => sanitize(xs[i]))
  }

  /** The record built from the form, every value passed through `sanitize_text_field`. */
  function OptionsRecord(form: Form, sanitize: string -> string): (o: Options)
    ensures form.relatedSites.None? ==> o.relatedSites == []
    ensures form.enabledCpts.None? ==> o.enabledCpts == []
    ensures form.mainSite.None? ==> o.mainSite == "1"
    ensures form.mainSite.Some? ==> o.mainSite == sanitize(form.mainSite.value)
    ensures form.relatedSites.Some? ==> o.relatedSites == SanitizeAll(form.relatedSites.value, sanitize)
    ensures form.enabledCpts.Some? ==> o.enabledCpts == SanitizeAll(form.enabledCpts.value, sanitize)
  {
    Options(
      if form.relatedSites.Some? then SanitizeAll(form.relatedSites.value, sanitize) else [],
      if form.mainSite.Some? then sanitize(form.mainSite.value) else "1",
      if form.enabledCpts.Some? then SanitizeAll(form.enabledCpts.value, sanitize) else [])
  }

  /** With a sanitizer that leaves the posted values alone, the saved record
      is the form with its defaults filled in. */
  lemma CleanFormSaved(form: Form, sanitize: string -> string)
    requires forall s :: sanitize(s) == s
    ensures OptionsRecord(form, sanitize) ==
      Options(form.relatedSites.GetOr([]), form.mainSite.GetOr("1"), form.enabledCpts.GetOr([]))
  {
    if form.relatedSites.Some? {
      assert SanitizeAll(form.relatedSites.value, sanitize) == form.relatedSites.value;
    }
    if form.enabledCpts.Some? {
      assert SanitizeAll(form.enabledCpts.value, sanitize) == form.enabledCpts.value;
    }
  }

  /** The network-wide options store. */
  class NetworkOptions {
    var options: map<string, Options>

    constructor ()
      ensures options == map[]
    {
      options := map[];
    }
  }

  // ---------------------------------------------------------------------------
  // Notices and activation

  /** One admin notice, keyed by its type in the notices array. */
  datatype Notice = Notice(content: string, dismissable: bool)

  const NoPrivileges := "You do not have sufficient priveleges to use this plugin!"
  const SettingsUpdated := "Settings updated!"

  class ClonerSetup {
    /** The relationship table, under the network's base prefix. */
    var tableName: string
    var notices: seq<(string, Notice)>

    constructor (basePrefix: string)
      ensures tableName == basePrefix + "relationships" && notices == []
    {
      tableName := basePrefix + "relationships";
      notices := [];
    }

    /** `activate_plugin`: the table it asks `maybe_create_table` for, if any. */
    method ActivatePlugin(superAdmin: bool, administrator: bool) returns (createTable: Option<string>)
      modifies this
      ensures !superAdmin ==> notices == [("error", Notice(NoPrivileges, false))] && createTable.None?
      ensures superAdmin ==> notices == old(notices) && (createTable.Some? <==> administrator)
      ensures createTable.Some? ==> createTable.value == tableName
      ensures tableName == old(tableName)
    {
      if !superAdmin {
        notices := [("error", Notice(NoPrivileges, false))];
        return None;
      }
      createTable := if administrator then Some(tableName) else None;
    }

    /** The notice part of `setup_admin_settings`, after a redirect back from saving. */
    method SetupAdminSettings(clonerUpdated: bool)
      modifies this
      ensures clonerUpdated ==> notices == [("success", Notice(SettingsUpdated, true))]
      ensures !clonerUpdated ==> notices == old(notices)
      ensures tableName == old(tableName)
    {
      if clonerUpdated {
        notices := [("success", Notice(SettingsUpdated, true))];
      }
    }

    /** `save_admin_settings`: nothing is written when the nonce check fails. */
    method SaveAdminSettings(nonceValid: bool, form: Form, sanitize: string -> string, store: NetworkOptions)
      modifies store
      ensures nonceValid ==> store.options == old(store.options)[OptionName := OptionsRecord(form, sanitize)]
      ensures !nonceValid ==> store.options == old(store.options)
    {
      if !nonceValid {
        return;
      }
      var related: seq<string> := [];
      if form.relatedSites.Some? {
        related := SanitizeAll(form.relatedSites.value, sanitize);
      }
      var main := "1";
      if form.mainSite.Some? {
        main := sanitize(form.mainSite.value);
      }
      var cpts: seq<string> := [];
      if form.enabledCpts.Some? {
        cpts := SanitizeAll(form.enabledCpts.value, sanitize);
      }
      store.options := store.options[OptionName := Options(related, main, cpts)];
    }

    /** `get_all_cpts`, with each site's public custom post types supplied by `postTypes`. */
    method GetAllCpts(sites: seq<Id>, allSites: seq<Id>, postTypes: Id -> Labels) returns (cpts: Labels)
      ensures cpts == AllCpts(sites, allSites, postTypes)
    {
      var scan := sites;
      if scan == [] {
        scan := allSites;
      }
      cpts := BaseCpts;
      var i := 0;
      while i < |scan|
        invariant 0 <= i <= |scan|
        invariant cpts == Merged(scan[..i], postTypes)
      {
        var types := postTypes(scan[i]);
        ghost var start := cpts;
        var j := 0;
        while j < |types|
          invariant 0 <= j <= |types|
          invariant cpts == AddTypes(start, types[..j])
        {
          if types[j].0 !in Slugs(cpts) {
            cpts := cpts + [types[j]];
          }
          assert types[..j + 1][..j] == types[..j];
          j := j + 1;
        }
        assert types[..j] == types;
        assert scan[..i + 1][..i] == scan[..i];
        i := i + 1;
      }
      assert scan[..i] == scan;
    }
  }
}
