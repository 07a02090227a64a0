/** The relationship store behind `Cloner_Relationship`: one table row per
    relationship, holding `{ groupKey: { siteId: postId } }`, and the `_rid` post
    meta that points every participating post at its row. The switch to another
    site is an explicit site argument here. */
module Relationships {
  import opened Common

  /** One row of the relationships table: its `type` column and its unserialised
      `relationship` column. Every row the plugin writes holds exactly one group
      key, so the "first key" of the stored array is `key`. */
  datatype Row = Row(kind: string, key: string, sites: map<Id, Id>)

  /** A post on a site: where one `_rid` meta value lives. */
  datatype PostRef = PostRef(site: Id, post: Id)

  /** The whole store as a value: rows by rid, the table's next auto-increment
      id, and the `_rid` meta of every post on every site. */
  datatype Db = Db(rows: map<nat, Row>, nextRid: nat, rids: map<PostRef, Id>)

  /** The four props of a `Cloner_Relationship` object. */
  datatype Props = Props(sourcePost: Id, sourceBlog: Id, targetBlog: Id, targetPost: Id)

  /** What `get_relationship` returns: null, an empty array, or `{rid, relationship}`. */
  datatype Lookup = Null | Empty | Found(rid: Id, row: Row)

  /** The table's auto-increment counter stays ahead of every row. */
  ghost predicate Valid(db: Db) {
    && db.nextRid >= 1
    && forall rid :: rid in db.rows ==> 1 <= rid < db.nextRid
  }

  /** The props a relationship object takes from an argument array. */
  function PropsOf(args: Metabox): Props {
    Props(OrFalse(args.sourcePost), OrFalse(args.sourceBlog), OrFalse(args.targetBlog), OrFalse(args.targetPost))
  }

  predicate AllSet(p: Props) {
    p.sourcePost != 0 && p.sourceBlog != 0 && p.targetPost != 0 && p.targetBlog != 0
  }

  /** `get_rid`: the `_rid` meta of a post, read on the given site (0 when unset). */
  function RidOf(db: Db, post: Id, blog: Id): (rid: Id)
    ensures rid != 0 ==> PostRef(blog, post) in db.rids && db.rids[PostRef(blog, post)] == rid
    ensures PostRef(blog, post) in db.rids ==> rid == db.rids[PostRef(blog, post)]
    ensures PostRef(blog, post) !in db.rids ==> rid == 0
  {
    var at := PostRef(blog, post);
    if at in db.rids then db.rids[at] else 0
  }

  /** `get_relationship` once its arguments are settled: null for a missing
      post or site, an empty array when the post has no `_rid` (or its row is
      gone), and otherwise the stored row under its rid. */
  function Resolve(db: Db, post: Id, blog: Id): (r: Lookup)
    ensures r.Null? <==> post == 0 || blog == 0
    ensures r.Empty? <==> post != 0 && blog != 0 && (RidOf(db, post, blog) == 0 || RidOf(db, post, blog) !in db.rows)
    ensures r.Found? ==> r.rid == RidOf(db, post, blog) && r.rid != 0 && r.rid in db.rows && r.row == db.rows[r.rid]
  {
    if post == 0 || blog == 0 then Null
    else
      var rid := RidOf(db, post, blog);
      if rid == 0 || rid !in db.rows then Empty else Found(rid, db.rows[rid])
  }

  /** The new row `add_target_post` creates when the source is in no relationship. */
  function NewRow(p: Props): Row {
    Row("post", GroupKey(p.sourceBlog, p.sourcePost), map[p.sourceBlog := p.sourcePost, p.targetBlog := p.targetPost])
  }

  /** The rid `add_target_post` ends up with: the existing one, or the inserted one. */
  function AddedRid(db: Db, p: Props): Id {
    var l := Resolve(db, p.sourcePost, p.sourceBlog);
    if l.Found? then l.rid else db.nextRid
  }

  /** `add_target_post` on the store, called while `current` is the current site. */
  function Add(db: Db, p: Props, current: Id): (r: Db)
    // nothing happens unless all four props are set
    ensures !AllSet(p) ==> r == db
    // an existing record gains the target site only if it has no entry for it yet
    ensures AllSet(p) && Resolve(db, p.sourcePost, p.sourceBlog).Found? ==>
      var rid, row := Resolve(db, p.sourcePost, p.sourceBlog).rid, Resolve(db, p.sourcePost, p.sourceBlog).row;
      && r.nextRid == db.nextRid
      && r.rows.Keys == db.rows.Keys
      && (forall k :: k in db.rows && k != rid ==> r.rows[k] == db.rows[k])
      && r.rows[rid].kind == row.kind && r.rows[rid].key == row.key
      && r.rows[rid].sites.Keys == row.sites.Keys + {p.targetBlog}
      && (forall s :: s in row.sites ==> r.rows[rid].sites[s] == row.sites[s])
      && (p.targetBlog !in row.sites ==> r.rows[rid].sites[p.targetBlog] == p.targetPost)
    // otherwise one new 'post' record keyed "sourceBlog:sourcePost" is inserted
    ensures AllSet(p) && !Resolve(db, p.sourcePost, p.sourceBlog).Found? ==>
      && r.nextRid == db.nextRid + 1
      && r.rows == db.rows[db.nextRid := Row("post", GroupKey(p.sourceBlog, p.sourcePost),
                                              map[p.sourceBlog := p.sourcePost, p.targetBlog := p.targetPost])]
    // with a non-zero rid, the source post (on the current site) and the target
    // post (on the target site) both point at it; no other meta changes
    ensures AllSet(p) && AddedRid(db, p) != 0 ==>
      r.rids == db.rids[PostRef(current, p.sourcePost) := AddedRid(db, p)][PostRef(p.targetBlog, p.targetPost) := AddedRid(db, p)]
    ensures AddedRid(db, p) == 0 ==> r.rids == db.rids
    ensures Valid(db) ==> Valid(r)
  {
    if !AllSet(p) then db
    else
      var l := Resolve(db, p.sourcePost, p.sourceBlog);
      var rid := AddedRid(db, p);
      var rows :=
        if l.Found? then
          var sites := if p.targetBlog in l.row.sites then l.row.sites else l.row.sites[p.targetBlog := p.targetPost];
          db.rows[rid := l.row.(sites := sites)]
        else db.rows[rid := NewRow(p)];
      var rids :=
        if rid != 0 then db.rids[PostRef(current, p.sourcePost) := rid][PostRef(p.targetBlog, p.targetPost) := rid]
        else db.rids;
      Db(rows, if l.Found? then db.nextRid else db.nextRid + 1, rids)
  }

  /** `remove_target_post` on the store. */
  function Remove(db: Db, p: Props): (r: Db)
    // a missing target, or a target in no relationship, changes nothing
    ensures p.targetPost == 0 || p.targetBlog == 0 ==> r == db
    ensures !Resolve(db, p.targetPost, p.targetBlog).Found? ==> r == db
    // otherwise only the target site's entry of the target's row goes, the row
    // itself stays (possibly partial), and only the target's `_rid` is deleted
    ensures Resolve(db, p.targetPost, p.targetBlog).Found? ==>
      var rid, row := Resolve(db, p.targetPost, p.targetBlog).rid, Resolve(db, p.targetPost, p.targetBlog).row;
      && r.nextRid == db.nextRid
      && r.rows.Keys == db.rows.Keys
      && (forall k :: k in db.rows && k != rid ==> r.rows[k] == db.rows[k])
      && r.rows[rid].kind == row.kind && r.rows[rid].key == row.key
      && r.rows[rid].sites.Keys == row.sites.Keys - {p.targetBlog}
      && (forall s :: s in r.rows[rid].sites ==> r.rows[rid].sites[s] == row.sites[s])
      && r.rids == db.rids - {PostRef(p.targetBlog, p.targetPost)}
    ensures Valid(db) ==> Valid(r)
  {
    var l := Resolve(db, p.targetPost, p.targetBlog);
    if !l.Found? then db
    else
      Db(db.rows[l.rid := l.row.(sites := l.row.sites - {p.targetBlog})], db.nextRid,
         db.rids - {PostRef(p.targetBlog, p.targetPost)})
  }

  /** After `add_target_post` run from the source's own site, the source and the
      target post both resolve to one and the same record, which has an entry for
      the target site. */
  lemma AddJoinsBoth(db: Db, p: Props)
    requires Valid(db) && AllSet(p)
    ensures var r := Add(db, p, p.sourceBlog);
      && Resolve(r, p.sourcePost, p.sourceBlog).Found?
      && Resolve(r, p.targetPost, p.targetBlog) == Resolve(r, p.sourcePost, p.sourceBlog)
      && p.targetBlog in Resolve(r, p.sourcePost, p.sourceBlog).row.sites
  {
    var r := Add(db, p, p.sourceBlog);
    var rid := AddedRid(db, p);
    assert rid != 0;
    assert RidOf(r, p.sourcePost, p.sourceBlog) == rid;
    assert RidOf(r, p.targetPost, p.targetBlog) == rid;
    assert rid in r.rows;
  }

  /** Repeating `add_target_post` from the source's own site changes nothing more. */
  lemma AddIdempotent(db: Db, p: Props)
    requires Valid(db)
    ensures Add(Add(db, p, p.sourceBlog), p, p.sourceBlog) == Add(db, p, p.sourceBlog)
  {
    if AllSet(p) {
      var r := Add(db, p, p.sourceBlog);
      AddJoinsBoth(db, p);
      var l := Resolve(r, p.sourcePost, p.sourceBlog);
      assert AddedRid(r, p) == l.rid == AddedRid(db, p);
      var r2 := Add(r, p, p.sourceBlog);
      assert r2.rows == r.rows[l.rid := l.row];
      assert r2.rows == r.rows;
      assert r2.rids == r.rids;
    }
  }

  /** Linking a fresh target and unlinking it again leaves a record holding the
      source alone, with the target back out of every relationship. */
  lemma LinkThenUnlink(db: Db, p: Props)
    requires Valid(db) && AllSet(p) && p.sourceBlog != p.targetBlog
    requires Resolve(db, p.sourcePost, p.sourceBlog).Empty?
    ensures var r := Remove(Add(db, p, p.sourceBlog), p);
      && r.rows == db.rows[db.nextRid := Row("post", GroupKey(p.sourceBlog, p.sourcePost), map[p.sourceBlog := p.sourcePost])]
      && r.nextRid == db.nextRid + 1
      && Resolve(r, p.targetPost, p.targetBlog).Empty?
      && Resolve(r, p.sourcePost, p.sourceBlog) == Found(db.nextRid, r.rows[db.nextRid])
  {
    var a := Add(db, p, p.sourceBlog);
    AddJoinsBoth(db, p);
    assert Resolve(a, p.targetPost, p.targetBlog) == Found(db.nextRid, NewRow(p));
    var r := Remove(a, p);
    assert NewRow(p).sites - {p.targetBlog} == map[p.sourceBlog := p.sourcePost];
    assert PostRef(p.sourceBlog, p.sourcePost) != PostRef(p.targetBlog, p.targetPost);
    assert RidOf(r, p.sourcePost, p.sourceBlog) == db.nextRid;
  }

  /** The `relationships` table of a network, and the `_rid` meta of its posts. */
  class Store {
    var rows: map<nat, Row>
    var nextRid: nat
    var rids: map<PostRef, Id>

    function Value(): Db
      reads this
    {
      Db(rows, nextRid, rids)
    }

    /** A freshly created, empty table. */
    constructor ()
      ensures Value() == Db(map[], 1, map[]) && Valid(Value())
    {
      rows, nextRid, rids := map[], 1, map[];
    }
  }

  /** `Cloner_Relationship`: four props and the operations on the store. */
  class ClonerRelationship {
    var sourcePost: Id
    var sourceBlog: Id
    var targetBlog: Id
    var targetPost: Id

    function AsProps(): Props
      reads this
    {
      Props(sourcePost, sourceBlog, targetBlog, targetPost)
    }

    constructor (args: Metabox)
      ensures AsProps() == PropsOf(args)
    {
      sourcePost := OrFalse(args.sourcePost);
      sourceBlog := OrFalse(args.sourceBlog);
      targetBlog := OrFalse(args.targetBlog);
      targetPost := OrFalse(args.targetPost);
    }

    /** `update_props`: all four props are overwritten; a missing key becomes false. */
    method UpdateProps(args: Metabox)
      modifies this
      ensures sourcePost == OrFalse(args.sourcePost) && sourceBlog == OrFalse(args.sourceBlog)
      ensures targetBlog == OrFalse(args.targetBlog) && targetPost == OrFalse(args.targetPost)
      ensures args.sourcePost.None? ==> sourcePost == 0
      ensures args.targetPost.None? ==> targetPost == 0
    {
      sourcePost := OrFalse(args.sourcePost);
      sourceBlog := OrFalse(args.sourceBlog);
      targetBlog := OrFalse(args.targetBlog);
      targetPost := OrFalse(args.targetPost);
    }

    /** `get_relationship`: a missing argument falls back to the object's own prop. */
    function GetRelationship(store: Store, post: Id, blog: Id): (r: Lookup)
      reads this, store
      ensures post != 0 && blog != 0 ==> r == Resolve(store.Value(), post, blog)
      ensures post == 0 && blog == 0 ==> r == Resolve(store.Value(), sourcePost, sourceBlog)
      ensures r.Null? <==> (post == 0 && sourcePost == 0) || (blog == 0 && sourceBlog == 0)
    {
      var p := if post != 0 then post else sourcePost;
      var b := if blog != 0 then blog else sourceBlog;
      Resolve(store.Value(), p, b)
    }

    /** `add_target_post`, run while `current` is the current site. */
    method AddTargetPost(store: Store, current: Id)
      modifies store
      ensures store.Value() == Add(old(store.Value()), AsProps(), current)
    {
      if sourcePost == 0 || sourceBlog == 0 || targetPost == 0 || targetBlog == 0 {
        return;
      }
      var relArray := GetRelationship(store, sourcePost, sourceBlog);
      var rid: Id;
      if relArray.Found? {
        rid := relArray.rid;
        var row := relArray.row;
        if targetBlog !in row.sites {
          row := row.(sites := row.sites[targetBlog := targetPost]);
        }
        store.rows := store.rows[rid := row];
      } else {
        var key := GroupKey(sourceBlog, sourcePost);
        var row := Row("post", key, map[sourceBlog := sourcePost, targetBlog := targetPost]);
        rid := store.nextRid;
        store.rows := store.rows[rid := row];
        store.nextRid := store.nextRid + 1;
      }
      if rid != 0 {
        store.rids := store.rids[PostRef(current, sourcePost) := rid];
        store.rids := store.rids[PostRef(targetBlog, targetPost) := rid];
      }
    }

    /** `remove_target_post`. */
    method RemoveTargetPost(store: Store)
      modifies store
      ensures store.Value() == Remove(old(store.Value()), AsProps())
    {
      if targetPost == 0 || targetBlog == 0 {
        return;
      }
      var relArray := GetRelationship(store, targetPost, targetBlog);
      if !relArray.Found? {
        return;
      }
      var rid, row := relArray.rid, relArray.row;
      row := row.(sites := row.sites - {targetBlog});
      store.rows := store.rows[rid := row];
      store.rids := store.rids - {PostRef(targetBlog, targetPost)};
    }
  }
}
