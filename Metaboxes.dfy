/** `Cloner_Metaboxes`: which panels the post editor shows, what each panel
    says about the related post on its site, and what the AJAX endpoint does
    with the panels the editor sends back. HTML rendering is a parameter. */
module Metaboxes {
  import opened Common
  import opened Relationships

  // ---------------------------------------------------------------------------
  // Panels

  /** One `add_meta_box` registration: its id, the post type screen it is on,
      and the `blog_id` callback argument. */
  datatype Panel = Panel(id: string, screen: string, blogId: Id)

  function PanelFor(screen: string, blog: Id): Panel {
    Panel("cty_cloner_id_" + Decimal(blog), screen, blog)
  }

  /** The registrations for one screen: one per related site, in order, except the current site. */
  function SitePanels(screen: string, sites: seq<Id>, current: Id): seq<Panel> {
    if sites == [] then []
    else
      var last := sites[|sites| - 1];
      SitePanels(screen, sites[..|sites| - 1], current) + (if last == current then [] else [PanelFor(screen, last)])
  }

  /** The registrations for every enabled post type, in order. */
  function Panels(cpts: seq<string>, sites: seq<Id>, current: Id): seq<Panel> {
    if cpts == [] then []
    else Panels(cpts[..|cpts| - 1], sites, current) + SitePanels(cpts[|cpts| - 1], sites, current)
  }

  lemma {:induction false} SitePanelsMembers(screen: string, sites: seq<Id>, current: Id, p: Panel)
    ensures p in SitePanels(screen, sites, current)
        <==> p.screen == screen && p.blogId in sites && p.blogId != current && p == PanelFor(screen, p.blogId)
  {
    if sites != [] {
      var front := sites[..|sites| - 1];
      SitePanelsMembers(screen, front, current, p);
      assert sites == front + [sites[|sites| - 1]];
    }
  }

  /** A panel is registered exactly for each (enabled post type, related site
      other than the current one) pair, under the id `cty_cloner_id_<site>`. */
  lemma {:induction false} PanelsMembers(cpts: seq<string>, sites: seq<Id>, current: Id, p: Panel)
    ensures p in Panels(cpts, sites, current)
        <==> p.screen in cpts && p.blogId in sites && p.blogId != current && p == PanelFor(p.screen, p.blogId)
  {
    if cpts != [] {
      var front := cpts[..|cpts| - 1];
      PanelsMembers(front, sites, current, p);
      SitePanelsMembers(cpts[|cpts| - 1], sites, current, p);
      assert cpts == front + [cpts[|cpts| - 1]];
    }
  }

  /** Panels for different sites never share an id. */
  lemma PanelIdsDistinct(s1: string, b1: Id, s2: string, b2: Id)
    requires PanelFor(s1, b1).id == PanelFor(s2, b2).id
    ensures b1 == b2
  {
    var prefix := "cty_cloner_id_";
    var id := PanelFor(s1, b1).id;
    assert Decimal(b1) == id[|prefix|..] == Decimal(b2);
    DecimalInjective(b1, b2);
  }

  /** `cloner_meta_box_cb`: the arguments a panel for `targetBlog` is rendered
      with, on the editor of `post` on site `current`. The target post is the
      entry for `targetBlog` in the post's relationship, or false. */
  function PanelArgs(db: Db, post: Id, current: Id, targetBlog: Id): (r: Metabox)
    ensures r.sourcePost == Some(post) && r.sourceBlog == Some(current) && r.targetBlog == Some(targetBlog)
    ensures r.action.None? && r.html.None? && r.targetPost.Some?
    ensures var l := Resolve(db, post, current);
      && (l.Found? && targetBlog in l.row.sites ==> r.targetPost.value == l.row.sites[targetBlog])
      && (!(l.Found? && targetBlog in l.row.sites) ==> r.targetPost.value == 0)
  {
    var l := Resolve(db, post, current);
    var target := if l.Found? && targetBlog in l.row.sites then l.row.sites[targetBlog] else 0;
    Metabox(None, Some(current), Some(post), Some(targetBlog), Some(target), None)
  }

  // ---------------------------------------------------------------------------
  // Actions

  /** The action a panel asks for; a missing one is 'ignore'. */
  function ActionOf(mb: Metabox): string {
    mb.action.GetOr("ignore")
  }

  predicate Acts(mb: Metabox) {
    ActionOf(mb) in {"copy", "overwrite", "link", "unlink"}
  }

  /** `do_metabox_action` on the store, run from site `current`. `copied` is
      what `copy_post` returned for this panel and `render` the panel's HTML. */
  function Dispatch(mb: Metabox, db: Db, current: Id, copied: Id, render: Metabox -> string): (r: (Metabox, Db))
    // ignore, a missing action or an unknown one: the panel comes back as it was
    ensures !Acts(mb) ==> r == (mb, db)
    // every action keeps the panel's source and target site and adds its HTML
    ensures Acts(mb) ==> && r.0.action == mb.action && r.0.sourceBlog == mb.sourceBlog
                         && r.0.sourcePost == mb.sourcePost && r.0.targetBlog == mb.targetBlog
                         && r.0.html == Some(render(r.0.(html := mb.html)))
    // copy and overwrite: the target becomes the copy, which is then added
    ensures ActionOf(mb) in {"copy", "overwrite"} ==>
      r.0.targetPost == Some(copied) && r.1 == Add(db, PropsOf(mb.(targetPost := Some(copied))), current)
    // link: the submitted target is added without copying
    ensures ActionOf(mb) == "link" ==> r.0.targetPost == mb.targetPost && r.1 == Add(db, PropsOf(mb), current)
    // unlink: the submitted target is removed, and the panel forgets it
    ensures ActionOf(mb) == "unlink" ==> r.0.targetPost == Some(0) && r.1 == Remove(db, PropsOf(mb))
  {
    match ActionOf(mb)
    case "copy" | "overwrite" =>
      var m := mb.(targetPost := Some(copied));
      (m.(html := Some(render(m))), Add(db, PropsOf(m), current))
    case "link" =>
      (mb.(html := Some(render(mb))), Add(db, PropsOf(mb), current))
    case "unlink" =>
      var m := mb.(targetPost := Some(0));
      (m.(html := Some(render(m))), Remove(db, PropsOf(mb)))
    case _ => (mb, db)
  }

  /** Copy and overwrite are one action. */
  lemma CopyIsOverwrite(mb: Metabox, db: Db, current: Id, copied: Id, render: Metabox -> string)
    ensures Dispatch(mb.(action := Some("copy")), db, current, copied, render).1
         == Dispatch(mb.(action := Some("overwrite")), db, current, copied, render).1
    ensures Dispatch(mb.(action := Some("copy")), db, current, copied, render).0.targetPost
         == Dispatch(mb.(action := Some("overwrite")), db, current, copied, render).0.targetPost
  {
  }

  /** After a copy from the source's own site of a post not yet related on the
      target site, that site's panel shows the copy. */
  lemma CopyThenPanelShowsCopy(mb: Metabox, db: Db, copied: Id, render: Metabox -> string)
    requires Valid(db) && ActionOf(mb) == "copy"
    requires var p := PropsOf(mb.(targetPost := Some(copied)));
      AllSet(p) && !(Resolve(db, p.sourcePost, p.sourceBlog).Found? && p.targetBlog in Resolve(db, p.sourcePost, p.sourceBlog).row.sites)
    ensures var p := PropsOf(mb);
      var r := Dispatch(mb, db, p.sourceBlog, copied, render);
      PanelArgs(r.1, p.sourcePost, p.sourceBlog, p.targetBlog).targetPost == Some(copied)
  {
    var p := PropsOf(mb.(targetPost := Some(copied)));
    AddJoinsBoth(db, p);
    var r := Add(db, p, p.sourceBlog);
    var l := Resolve(r, p.sourcePost, p.sourceBlog);
    var l0 := Resolve(db, p.sourcePost, p.sourceBlog);
    if l0.Found? {
      assert l.rid == l0.rid;
      assert l.row.sites[p.targetBlog] == copied;
    } else {
      assert l.row == NewRow(p);
    }
  }

  /** Unlinking the target of a post's own relationship makes its panel empty again. */
  lemma UnlinkThenPanelEmpty(mb: Metabox, db: Db, current: Id, render: Metabox -> string)
    requires Valid(db) && ActionOf(mb) == "unlink"
    requires var p := PropsOf(mb);
      && p.sourcePost != 0 && p.sourceBlog != 0
      && Resolve(db, p.targetPost, p.targetBlog).Found?
      && Resolve(db, p.sourcePost, p.sourceBlog) == Resolve(db, p.targetPost, p.targetBlog)
    ensures var p := PropsOf(mb);
      var r := Dispatch(mb, db, current, 0, render);
      PanelArgs(r.1, p.sourcePost, p.sourceBlog, p.targetBlog).targetPost == Some(0)
  {
    var p := PropsOf(mb);
    var r := Remove(db, p);
    var l := Resolve(db, p.targetPost, p.targetBlog);
    if PostRef(p.sourceBlog, p.sourcePost) == PostRef(p.targetBlog, p.targetPost) {
      assert Resolve(r, p.sourcePost, p.sourceBlog).Empty?;
    } else {
      assert RidOf(r, p.sourcePost, p.sourceBlog) == l.rid;
      assert p.targetBlog !in r.rows[l.rid].sites;
    }
  }

  // ---------------------------------------------------------------------------
  // The AJAX endpoint

  /** The search form's fields: the panel's ids and the term typed. */
  datatype SearchQuery = SearchQuery(sourceBlog: Id, targetBlog: Id, searchTerm: string, sourcePost: Id)

  /** The `WP_Query` arguments `search_posts` runs on the target site. */
  datatype PostQuery = PostQuery(postType: string, perPage: nat, status: string, search: string, idsOnly: bool)

  /** `search_posts`: null without a target site or a search term, else the query
      for at most 20 ids of posts. `postTypeOf(site, post)` is `get_post_type`
      with `site` switched to; as written the switch to the target site comes
      first, so the type is read for the source post's id on the target site. */
  function SearchRequest(q: SearchQuery, postTypeOf: (Id, Id) -> string): (r: Option<PostQuery>)
    ensures r.None? <==> q.targetBlog == 0 || !TruthyString(q.searchTerm)
    ensures r.Some? ==> r.value.perPage == 20 && r.value.search == q.searchTerm && r.value.idsOnly
    ensures r.Some? ==> r.value.postType == postTypeOf(q.targetBlog, q.sourcePost) && r.value.status == "any"
  {
    if q.targetBlog == 0 || !TruthyString(q.searchTerm) then None
    else Some(PostQuery(postTypeOf(q.targetBlog, q.sourcePost), 20, "any", q.searchTerm, true))
  }

  /** `search_posts` as intended: the source post's type, read on the source site. */
  function SearchRequestIntended(q: SearchQuery, postTypeOf: (Id, Id) -> string): (r: Option<PostQuery>)
    ensures r.None? <==> SearchRequest(q, postTypeOf).None?
    ensures r.Some? ==> r.value == SearchRequest(q, postTypeOf).value.(postType := postTypeOf(q.sourceBlog, q.sourcePost))
  {
    if q.targetBlog == 0 || !TruthyString(q.searchTerm) then None
    else Some(PostQuery(postTypeOf(q.sourceBlog, q.sourcePost), 20, "any", q.searchTerm, true))
  }

  /** The two queries differ exactly when the post id has another type on the
      target site than on the source site. */
  lemma SearchTypeFromTargetSite(q: SearchQuery, postTypeOf: (Id, Id) -> string)
    requires SearchRequest(q, postTypeOf).Some?
    ensures SearchRequest(q, postTypeOf) == SearchRequestIntended(q, postTypeOf)
      <==> postTypeOf(q.targetBlog, q.sourcePost) == postTypeOf(q.sourceBlog, q.sourcePost)
  {
  }

  /** A page (id 7 on site 1) searched for from site 2, where id 7 is a post:
      the written query asks for posts, the intended one for pages. */
  lemma SearchForPageFindsPosts()
    ensures var q := SearchQuery(1, 2, "about", 7);
      var types := (site: Id, post: Id) => if site == 1 then "page" else "post";
      && SearchRequest(q, types).value.postType == "post"
      && SearchRequestIntended(q, types).value.postType == "page"
  {
    assert TruthyString("about");
  }

  /** The decoded `data` field: the editor's panels, or the search form. */
  datatype Payload = Boxes(items: seq<Metabox>) | Query(q: SearchQuery)

  /** The `$_REQUEST` fields the endpoint reads. */
  datatype Request = Request(action: Option<string>, data: Option<Payload>)

  /** The JSON response: `success`, and `message`, `data` or `posts`. */
  datatype Response = Response(success: bool, message: Option<string>, data: Option<Payload>, posts: Option<Option<PostQuery>>)

  /** The panel loop from `i` on: each panel is replaced in place by its result. */
  function ProcessFrom(items: seq<Metabox>, i: nat, db: Db, current: Id, copies: nat -> Id, render: Metabox -> string): (r: (seq<Metabox>, Db))
    requires i <= |items|
    ensures |r.0| == |items|
    ensures forall k :: 0 <= k < i ==> r.0[k] == items[k]
    ensures forall k :: i <= k < |items| && !Acts(items[k]) ==> r.0[k] == items[k]
    ensures forall k :: i <= k < |items| && Acts(items[k]) ==>
      && r.0[k].action == items[k].action && r.0[k].targetBlog == items[k].targetBlog
      && r.0[k].sourceBlog == items[k].sourceBlog && r.0[k].sourcePost == items[k].sourcePost
      && r.0[k].html.Some?
    decreases |items| - i
  {
    if i == |items| then (items, db)
    else
      var d := Dispatch(items[i], db, current, copies(i), render);
      ProcessFrom(items[i := d.0], i + 1, d.1, current, copies, render)
  }

  /** Panels that ask for nothing leave the store alone. */
  lemma {:induction false} IgnoredPanelsChangeNothing(items: seq<Metabox>, i: nat, db: Db, current: Id, copies: nat -> Id, render: Metabox -> string)
    requires i <= |items|
    requires forall k :: i <= k < |items| ==> !Acts(items[k])
    ensures ProcessFrom(items, i, db, current, copies, render) == (items, db)
    decreases |items| - i
  {
    if i < |items| {
      assert items[i := items[i]] == items;
      IgnoredPanelsChangeNothing(items, i + 1, db, current, copies, render);
    }
  }

  /** `process_cloner_actions` on a request, given the store. */
  function Respond(req: Request, db: Db, current: Id, copies: nat -> Id, render: Metabox -> string, postTypeOf: (Id, Id) -> string): (r: (Response, Db))
    ensures req.action.None? || req.data.None? ==> r == (Response(false, Some("Data not provided."), None, None), db)
    ensures req.action.Some? && req.data.Some? ==> r.0.success
    ensures req.action == Some("cty-cloner-search") && req.data.Some? ==> r.1 == db
  {
    if req.action.None? || req.data.None? then (Response(false, Some("Data not provided."), None, None), db)
    else if req.action.value == "cty-cloner-search" then
      var q := match req.data.value
        case Query(q) => SearchRequest(q, postTypeOf)
        case Boxes(_) => None;
      (Response(true, None, None, Some(q)), db)
    else
      match req.data.value
      case Boxes(items) =>
        var p := ProcessFrom(items, 0, db, current, copies, render);
        (Response(true, None, Some(Boxes(p.0)), None), p.1)
      case Query(_) =>
        // every field of the search form reads as an ignored panel
        (Response(true, None, req.data, None), db)
  }

  // ---------------------------------------------------------------------------
  // The class

  /** The plugin's network options: the related sites and enabled post types,
      each possibly absent. */
  datatype SiteOptions = SiteOptions(relatedSites: Option<seq<Id>>, enabledCpts: Option<seq<string>>)

  class ClonerMetaboxes {
    var relatedSites: seq<Id>
    var enabledCpts: seq<string>
    var currentSite: Id
    /** Whether `add_cloner_meta_box` is hooked to 'add_meta_boxes'. */
    var hooked: bool

    constructor ()
      ensures relatedSites == [] && enabledCpts == [] && currentSite == 0 && !hooked
    {
      relatedSites, enabledCpts, currentSite, hooked := [], [], 0, false;
    }

    /** `initialise_meta_box`: panels are hooked only with options, some related
        sites, some post types, and the current site among the related ones.
        `options` is None when the option is false or empty. */
    method InitialiseMetaBox(options: Option<SiteOptions>, current: Id)
      modifies this
      ensures options.None? ==> relatedSites == old(relatedSites) && enabledCpts == old(enabledCpts)
      ensures options.Some? ==>
        relatedSites == options.value.relatedSites.GetOr([]) && enabledCpts == options.value.enabledCpts.GetOr([])
      ensures hooked <==> old(hooked) || (options.Some? && relatedSites != [] && enabledCpts != [] && current in relatedSites)
      ensures hooked && !old(hooked) ==> currentSite == current
    {
      if options.None? {
        return;
      }
      relatedSites := options.value.relatedSites.GetOr([]);
      enabledCpts := options.value.enabledCpts.GetOr([]);
      if relatedSites == [] || enabledCpts == [] {
        return;
      }
      currentSite := current;
      if current in relatedSites {
        hooked := true;
      }
    }

    /** `add_cloner_meta_box`: the registrations, in order. */
    method AddClonerMetaBox() returns (panels: seq<Panel>)
      ensures panels == Panels(enabledCpts, relatedSites, currentSite)
    {
      panels := [];
      var i := 0;
      while i < |enabledCpts|
        invariant 0 <= i <= |enabledCpts|
        invariant panels == Panels(enabledCpts[..i], relatedSites, currentSite)
      {
        var screen := enabledCpts[i];
        var j := 0;
        while j < |relatedSites|
          invariant 0 <= j <= |relatedSites|
          invariant panels == Panels(enabledCpts[..i], relatedSites, currentSite) + SitePanels(screen, relatedSites[..j], currentSite)
        {
          var blog := relatedSites[j];
          assert relatedSites[..j + 1][..j] == relatedSites[..j];
          if blog != currentSite {
            panels := panels + [PanelFor(screen, blog)];
          }
          j := j + 1;
        }
        assert relatedSites[..j] == relatedSites;
        assert enabledCpts[..i + 1][..i] == enabledCpts[..i];
        i := i + 1;
      }
      assert enabledCpts[..i] == enabledCpts;
    }

    /** `do_metabox_action`, through a relationship object built from the panel. */
    method DoMetaboxAction(mb: Metabox, store: Store, current: Id, copied: Id, render: Metabox -> string) returns (r: Metabox)
      modifies store
      ensures (r, store.Value()) == Dispatch(mb, old(store.Value()), current, copied, render)
    {
      var rel := new ClonerRelationship(mb);
      r := mb;
      var action := ActionOf(mb);
      if action == "copy" || action == "overwrite" {
        r := r.(targetPost := Some(copied));
        rel.UpdateProps(r);
        rel.AddTargetPost(store, current);
      } else if action == "link" {
        rel.UpdateProps(r);
        rel.AddTargetPost(store, current);
      } else if action == "unlink" {
        rel.RemoveTargetPost(store);
        r := r.(targetPost := Some(0));
        rel.UpdateProps(r);
      } else {
        return;
      }
      r := r.(html := Some(render(r)));
    }

    /** `process_cloner_actions`: the panels are rewritten in place, one by one. */
    method ProcessClonerActions(req: Request, store: Store, current: Id, copies: nat -> Id, render: Metabox -> string, postTypeOf: (Id, Id) -> string) returns (res: Response)
      modifies store
      ensures (res, store.Value()) == Respond(req, old(store.Value()), current, copies, render, postTypeOf)
    {
      if req.action.None? || req.data.None? {
        return Response(false, Some("Data not provided."), None, None);
      }
      if req.action.value == "cty-cloner-search" {
        var posts := if req.data.value.Query? then SearchRequest(req.data.value.q, postTypeOf) else None;
        return Response(true, None, None, Some(posts));
      }
      if req.data.value.Query? {
        return Response(true, None, req.data, None);
      }
      var data := req.data.value.items;
      var i := 0;
      while i < |data|
        invariant 0 <= i <= |data|
        invariant ProcessFrom(data, i, store.Value(), current, copies, render)
               == ProcessFrom(req.data.value.items, 0, old(store.Value()), current, copies, render)
      {
        var processed := DoMetaboxAction(data[i], store, current, copies(i), render);
        data := data[i := processed];
        i := i + 1;
      }
      res := Response(true, None, Some(Boxes(data)), None);
    }
  }
}
