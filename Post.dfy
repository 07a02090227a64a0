/** `Cloner_Post`: a deleted post leaves its relationship, and a cloned
    post's canonical URL points at its counterpart on the main site. */
module Post {
  import opened Common
  import opened Relationships

  // ---------------------------------------------------------------------------
  // unlink_deleted

  /** The props `unlink_deleted` builds: only the deleted post as target, on the current site. */
  function DeletedProps(post: Id, current: Id): Props {
    Props(0, 0, current, post)
  }

  /** `unlink_deleted` on the store: nothing when the post has no `_rid`,
      otherwise the post leaves its relationship. */
  function Unlinked(db: Db, post: Id, current: Id): (r: Db)
    ensures RidOf(db, post, current) == 0 ==> r == db
    // afterwards the post is in no relationship on that site
    ensures post != 0 && current != 0 ==> !Resolve(r, post, current).Found?
    // a row the post was in keeps every other site's entry
    ensures Resolve(db, post, current).Found? ==>
      var l := Resolve(db, post, current);
      && r.rows.Keys == db.rows.Keys
      && r.rows[l.rid].sites == l.row.sites - {current}
      && (forall k :: k in db.rows && k != l.rid ==> r.rows[k] == db.rows[k])
    ensures Valid(db) ==> Valid(r)
  {
    if RidOf(db, post, current) == 0 then db
    else Remove(db, DeletedProps(post, current))
  }

  // ---------------------------------------------------------------------------
  // edit_canonical_url

  /** The second argument of the canonical filters: a `WP_Post` from
      'get_canonical_url', a Yoast presentation (with or without
      `model->object_id`) from 'wpseo_canonical', or anything else. */
  datatype PostArg = WpPost(id: Id) | Presentation(objectId: Option<Id>) | Other

  /** The post id as the code extracts it. Inside `namespace cty_cloner` the
      unqualified `WP_Post` names `cty_cloner\WP_Post`, which does not exist,
      so the `instanceof` test is false for every post. */
  function PostIdAsWritten(p: PostArg): (id: Id)
    ensures p.WpPost? ==> id == 0
  {
    match p
    case Presentation(Some(id)) => id
    case _ => 0
  }

  /** The post id as intended: the post's own id, or the presentation's object id. */
  function PostId(p: PostArg): (id: Id)
    ensures p.WpPost? ==> id == p.id
    ensures p.Presentation? ==> id == p.objectId.GetOr(0)
    ensures p.Other? ==> id == 0
  {
    match p
    case WpPost(id) => id
    case Presentation(Some(id)) => id
    case _ => 0
  }

  /** What the canonical filter reads on the current site. */
  datatype Context = Context(
    isAdmin: bool,                   // is_admin()
    yoastCanonical: Id -> string,    // '_yoast_wpseo_canonical' meta of a post
    mainSite: Id,                    // intval of the 'main_site' option; 0 when unset
    current: Id,                     // get_current_blog_id()
    db: Db,                          // the relationship store
    permalink: (Id, Id) -> Option<string>) // get_blog_post(post, site)->permalink

  /** The decision chain once the post id is known. */
  function CanonicalFor(url: string, postId: Id, ctx: Context): (r: string)
    // admin screens and posts without an id keep their URL
    ensures ctx.isAdmin || postId == 0 ==> r == url
    // a Yoast canonical wins over everything after it
    ensures !ctx.isAdmin && postId != 0 && TruthyString(ctx.yoastCanonical(postId)) ==> r == ctx.yoastCanonical(postId)
    // without Yoast: no main site, or being on it, keeps the URL
    ensures !ctx.isAdmin && postId != 0 && !TruthyString(ctx.yoastCanonical(postId)) ==>
      && (ctx.mainSite == 0 || ctx.mainSite == ctx.current ==> r == url)
      && (ctx.mainSite != 0 && ctx.mainSite != ctx.current ==>
            var l := Resolve(ctx.db, postId, ctx.current);
            r == if l.Found? && ctx.mainSite in l.row.sites then ctx.permalink(l.row.sites[ctx.mainSite], ctx.mainSite).GetOr(url) else url)
  {
    if ctx.isAdmin || postId == 0 then url
    else if TruthyString(ctx.yoastCanonical(postId)) then ctx.yoastCanonical(postId)
    else if ctx.mainSite == 0 || ctx.mainSite == ctx.current then url
    else
      var l := Resolve(ctx.db, postId, ctx.current);
      if !l.Found? then url
      else if ctx.mainSite in l.row.sites then ctx.permalink(l.row.sites[ctx.mainSite], ctx.mainSite).GetOr(url)
      else url
  }

  /** `edit_canonical_url` as written. */
  function EditCanonicalUrlAsWritten(url: string, post: PostArg, ctx: Context): (r: string)
    // only a Yoast presentation gets an id, and then the intended result
    ensures !post.Presentation? ==> r == url
    ensures post.Presentation? ==> r == EditCanonicalUrl(url, post, ctx)
  {
    CanonicalFor(url, PostIdAsWritten(post), ctx)
  }

  /** `edit_canonical_url` with the post's id read from a `WP_Post`. */
  function EditCanonicalUrl(url: string, post: PostArg, ctx: Context): (r: string)
    ensures ctx.isAdmin || post.Other? ==> r == url
    ensures !ctx.isAdmin && PostId(post) != 0 && TruthyString(ctx.yoastCanonical(PostId(post))) ==> r == ctx.yoastCanonical(PostId(post))
  {
    CanonicalFor(url, PostId(post), ctx)
  }

  /** As written, the 'get_canonical_url' filter never changes a post's canonical URL. */
  lemma WpPostIgnoredAsWritten(url: string, id: Id, ctx: Context)
    ensures EditCanonicalUrlAsWritten(url, WpPost(id), ctx) == url
  {
  }

  /** The canonical URL is always the given URL, the Yoast canonical, or the
      permalink of a post on the main site. */
  lemma CanonicalChoices(url: string, post: PostArg, ctx: Context)
    ensures var r := EditCanonicalUrl(url, post, ctx);
      || r == url
      || r == ctx.yoastCanonical(PostId(post))
      || exists q :: ctx.permalink(q, ctx.mainSite) == Some(r)
  {
    var id := PostId(post);
    var l := Resolve(ctx.db, id, ctx.current);
    if !ctx.isAdmin && id != 0 && !TruthyString(ctx.yoastCanonical(id)) && ctx.mainSite != 0 && ctx.mainSite != ctx.current
       && l.Found? && ctx.mainSite in l.row.sites && ctx.permalink(l.row.sites[ctx.mainSite], ctx.mainSite).Some? {
      var q := l.row.sites[ctx.mainSite];
      assert ctx.permalink(q, ctx.mainSite) == Some(EditCanonicalUrl(url, post, ctx));
    }
  }

  /** Cloning a main-site post to another site and linking it there: the copy's
      canonical URL becomes the original's permalink. */
  lemma LinkedCopyPointsAtMain(url: string, p: Props, ctx: Context, db: Db)
    requires Valid(db) && AllSet(p) && p.sourceBlog != p.targetBlog
    requires !Resolve(db, p.sourcePost, p.sourceBlog).Found?
    requires ctx.mainSite == p.sourceBlog && ctx.current == p.targetBlog
    requires ctx.db == Add(db, p, p.sourceBlog)
    requires !ctx.isAdmin && !TruthyString(ctx.yoastCanonical(p.targetPost))
    ensures EditCanonicalUrl(url, WpPost(p.targetPost), ctx) == ctx.permalink(p.sourcePost, p.sourceBlog).GetOr(url)
  {
    AddJoinsBoth(db, p);
    var l := Resolve(ctx.db, p.targetPost, p.targetBlog);
    assert l.row == NewRow(p);
    assert l.row.sites[p.sourceBlog] == p.sourcePost;
  }

  /** The discrepancy: for a linked copy whose original has a permalink, the
      code as written leaves the copy's canonical URL alone. */
  lemma WpPostCanonicalMissed(url: string, p: Props, ctx: Context, db: Db, main: string)
    requires Valid(db) && AllSet(p) && p.sourceBlog != p.targetBlog
    requires !Resolve(db, p.sourcePost, p.sourceBlog).Found?
    requires ctx.mainSite == p.sourceBlog && ctx.current == p.targetBlog
    requires ctx.db == Add(db, p, p.sourceBlog)
    requires !ctx.isAdmin && !TruthyString(ctx.yoastCanonical(p.targetPost))
    requires ctx.permalink(p.sourcePost, p.sourceBlog) == Some(main) && main != url
    ensures EditCanonicalUrlAsWritten(url, WpPost(p.targetPost), ctx) == url
    ensures EditCanonicalUrl(url, WpPost(p.targetPost), ctx) == main
  {
    LinkedCopyPointsAtMain(url, p, ctx, db);
  }

  /** `Cloner_Post`, for its 'before_delete_post' hook. */
  class ClonerPost {
    constructor ()
    {
    }

    /** `unlink_deleted`, run on the site the post is deleted from. */
    method UnlinkDeleted(post: Id, store: Store, current: Id)
      modifies store
      ensures store.Value() == Unlinked(old(store.Value()), post, current)
    {
      var rid := RidOf(store.Value(), post, current);
      if rid == 0 {
        return;
      }
      var rel := new ClonerRelationship(Metabox(None, None, None, Some(current), Some(post), None));
      rel.RemoveTargetPost(store);
    }
  }
}
