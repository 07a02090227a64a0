/** `Cloner_Copier`: copies a post from its source site to a target site. The
    insert record is merged from the source post's fields, ACF block data and
    ACF post meta have their file and image values re-uploaded on the target
    site, and featured image and taxonomies follow. Queries, regex matching,
    JSON coding and the WordPress insert calls are given by an environment. */
module Copier {
  import opened Common
  import opened Php
  import opened Attachments

  // ---------------------------------------------------------------------------
  // return_db_var

  /** The `$args` of `return_db_var`: a column, a table (without prefix) and the
      column => value pairs of the WHERE clause, in array order. */
  datatype DbArgs = DbArgs(select: string, from: string, where: Fields)

  /** `"{$key} = '{$value}'"`. */
  function Condition(p: (string, Value)): string {
    p.0 + " = '" + ToPhpString(p.1) + "'"
  }

  /** The parts joined as the loop joins them: " AND " before every part but the first. */
  function Join(parts: seq<string>): string {
    if parts == [] then ""
    else if |parts| == 1 then parts[0]
    else Join(parts[..|parts| - 1]) + " AND " + parts[|parts| - 1]
  }

  /** The WHERE conditions, pair by pair, in array order. */
  function Conditions(where: Fields): (r: string)
    // each pair yields a non-empty condition, so only no pairs give no text
    ensures r == "" <==> where == []
  {
    Join(seq(|where|, i requires 0 <= i < |where| => Condition(where[i])))
  }

  /** The query text `return_db_var` hands to `get_var`. */
  function QueryText(args: DbArgs, prefix: string): (r: string)
    ensures HasPrefix(r, "SELECT " + args.select + " FROM " + prefix + args.from + " WHERE ")
    // no pairs leave a bare "WHERE " at the end
    ensures args.where == [] ==> r[|r| - 7..] == " WHERE "
  {
    "SELECT " + args.select + " FROM " + prefix + args.from + " WHERE " + Conditions(args.where)
  }

  /** Regrouping a text joined with a separator. */
  lemma Regroup(x: string, y: string, z: string, sep: string)
    ensures x + sep + y + sep + z == x + sep + (y + sep + z)
  {
  }

  /** Joining two non-empty lists puts exactly one " AND " between them. */
  lemma {:induction false} JoinAppend(a: seq<string>, b: seq<string>)
    requires a != [] && b != []
    ensures Join(a + b) == Join(a) + " AND " + Join(b)
    decreases |b|
  {
    var ab := a + b;
    var last := b[|b| - 1];
    assert ab[..|ab| - 1] == a + b[..|b| - 1] && ab[|ab| - 1] == last;
    if |b| == 1 {
      assert b[..|b| - 1] == [] && a + [] == a;
    } else {
      var front := b[..|b| - 1];
      JoinAppend(a, front);
      Regroup(Join(a), Join(front), last, " AND ");
    }
  }

  lemma ConditionsAppend(a: Fields, b: Fields)
    requires a != [] && b != []
    ensures Conditions(a + b) == Conditions(a) + " AND " + Conditions(b)
  {
    var ca := seq(|a|, i requires 0 <= i < |a| => Condition(a[i]));
    var cb := seq(|b|, i requires 0 <= i < |b| => Condition(b[i]));
    assert seq(|a + b|, i requires 0 <= i < |a + b| => Condition((a + b)[i])) == ca + cb;
    JoinAppend(ca, cb);
  }

  /** Read from the front: the first pair's condition, then " AND " and the rest. */
  lemma ConditionsCons(p: (string, Value), rest: Fields)
    requires rest != []
    ensures Conditions([p] + rest) == Condition(p) + " AND " + Conditions(rest)
  {
    ConditionsAppend([p], rest);
  }

  /** One more pair: " AND " and its condition, except after no pair at all. */
  lemma ConditionsSnoc(where: Fields, n: nat)
    requires n < |where|
    ensures Conditions(where[..n + 1])
         == (if n == 0 then "" else Conditions(where[..n]) + " AND ") + Condition(where[n])
  {
    var parts := seq(n + 1, i requires 0 <= i < n + 1 => Condition(where[..n + 1][i]));
    assert parts[..n] == seq(n, i requires 0 <= i < n => Condition(where[..n][i]));
  }

  /** One pass of `return_db_var`'s loop extends the WHERE clause by the next condition. */
  lemma WhereStep(clause: string, where: Fields, n: nat)
    requires n < |where| && clause == "WHERE " + Conditions(where[..n])
    ensures (if n > 0 then clause + " AND " else clause) + Condition(where[n]) == "WHERE " + Conditions(where[..n + 1])
  {
    ConditionsSnoc(where, n);
  }

  /** The query `return_db_var` assembles is the query text. */
  lemma QueryAssembled(a: DbArgs, prefix: string)
    ensures "SELECT " + a.select + " FROM " + (prefix + a.from) + " " + ("WHERE " + Conditions(a.where)) == QueryText(a, prefix)
  {
    assert " " + "WHERE " == " WHERE ";
  }

  /** The attachment lookup `copy_acf_blocks` runs on the source site. */
  function GuidQuery(id: Value): DbArgs {
    DbArgs("guid", "posts", [("ID", id), ("post_type", Text("attachment"))])
  }

  /** The GUID lookup's WHERE clause: both conditions, in order, joined by one " AND ". */
  lemma GuidConditions(id: Value)
    ensures Conditions(GuidQuery(id).where) == "ID = '" + ToPhpString(id) + "'" + " AND " + "post_type = 'attachment'"
  {
    var p, q := ("ID", id), ("post_type", Text("attachment"));
    assert GuidQuery(id).where == [p] + [q];
    ConditionsCons(p, [q]);
    assert Conditions([q]) == Condition(q);
    assert Condition(p) == "ID = '" + ToPhpString(id) + "'" by {
      assert "ID" + " = '" == "ID = '";
    }
    assert Condition(q) == "post_type = 'attachment'";
  }

  /** The GUID lookup of an attachment, as the text `get_var` receives: the
      site's `posts` table, then the WHERE clause of `GuidConditions`. */
  lemma GuidQueryText(id: Value, prefix: string)
    ensures QueryText(GuidQuery(id), prefix)
         == "SELECT guid FROM " + prefix + "posts WHERE " + Conditions([("ID", id), ("post_type", Text("attachment"))])
  {
    var head := "SELECT guid FROM " + prefix;
    assert "SELECT " + "guid" + " FROM " == "SELECT guid FROM ";
    assert head + "posts" + " WHERE " == head + "posts WHERE ";
  }

  // ---------------------------------------------------------------------------
  // The insert record

  /** `$args['target-post'] ?? false` as a record value. */
  function IdValue(targetPost: Id): Value {
    if targetPost == 0 then Bool(false) else Num(targetPost)
  }

  /** The source fields `copy_post` never copies. */
  predicate Excluded(k: string) {
    k == "ID" || k == "guid"
  }

  /** `isset($f[$k])`: present and not null. */
  predicate Isset(f: Fields, k: string) {
    Get(f, k) != Null
  }

  /** The copy loop over the remaining source fields: a field is added unless
      it is excluded or the record already holds a value under its name. */
  function Merge(acc: Fields, src: Fields): (r: Fields)
    // a field already set is never overwritten, and `ID` and `guid` never come from the source
    ensures forall k :: Isset(acc, k) || Excluded(k) ==> Get(r, k) == Get(acc, k)
    ensures KeySet(acc) <= KeySet(r)
    decreases |src|
  {
    if src == [] then acc
    else if Excluded(src[0].0) || Isset(acc, src[0].0) then Merge(acc, src[1..])
    else Merge(Set(acc, src[0].0, src[0].1), src[1..])
  }

  /** The record `copy_post` builds before the content rewrite: `ID` pinned to
      the target post (always set: `?? false` never leaves it null), then the
      source fields. */
  function InsertRecord(targetPost: Id, src: Fields): (r: Fields)
    ensures Get(r, "ID") == IdValue(targetPost) && Get(r, "guid") == Null
  {
    Merge([("ID", IdValue(targetPost))], src)
  }

  /** Reference: the source fields other than `ID` and `guid`, in order. */
  function Copied(src: Fields): (r: Fields)
    ensures forall i :: 0 <= i < |r| ==> !Excluded(r[i].0)
  {
    if src == [] then []
    else (if Excluded(src[0].0) then [] else [src[0]]) + Copied(src[1..])
  }

  lemma GetCons(x: (string, Value), f: Fields, k: string)
    ensures Get([x] + f, k) == if x.0 == k then x.1 else Get(f, k)
  {
    assert ([x] + f)[1..] == f;
  }

  lemma {:induction false} GetCopied(src: Fields, k: string)
    requires !Excluded(k)
    ensures Get(Copied(src), k) == Get(src, k)
  {
    if src != [] {
      GetCopied(src[1..], k);
      if Excluded(src[0].0) {
        assert Copied(src) == Copied(src[1..]);
      } else {
        GetCons(src[0], Copied(src[1..]), k);
      }
    }
  }

  /** An excluded field is skipped by the merge and by the reference alike. */
  lemma MergeSkip(acc: Fields, src: Fields)
    requires src != [] && Excluded(src[0].0)
    requires Merge(acc, src[1..]) == acc + Copied(src[1..])
    ensures Merge(acc, src) == acc + Copied(src)
  {
    assert Copied(src) == Copied(src[1..]);
  }

  /** A source field the record does not hold yet is appended to it. */
  lemma MergeStep(acc: Fields, src: Fields)
    requires src != [] && !Excluded(src[0].0) && src[0].0 !in KeySet(acc)
    ensures Merge(acc, src) == Merge(acc + [src[0]], src[1..])
  {
    var x := src[0];
    assert Set(acc, x.0, x.1) == acc + [x];
  }

  /** The reference keeps a field that is not excluded. */
  lemma CopiedKeeps(acc: Fields, src: Fields)
    requires src != [] && !Excluded(src[0].0)
    ensures acc + Copied(src) == acc + [src[0]] + Copied(src[1..])
  {
    assert Copied(src) == [src[0]] + Copied(src[1..]);
  }

  /** Merge and reference agree after a field the record did not hold yet. */
  lemma MergeTake(acc: Fields, src: Fields)
    requires src != [] && !Excluded(src[0].0) && src[0].0 !in KeySet(acc)
    requires Merge(acc + [src[0]], src[1..]) == acc + [src[0]] + Copied(src[1..])
    ensures Merge(acc, src) == acc + Copied(src)
  {
    MergeStep(acc, src);
    CopiedKeeps(acc, src);
  }

  /** The keys still to come stay absent from the record, with or without the
      head field added to it. */
  lemma StillFresh(acc: Fields, src: Fields)
    requires src != [] && UniqueKeys(src)
    requires forall i :: 0 <= i < |src| && !Excluded(src[i].0) ==> src[i].0 !in KeySet(acc)
    ensures forall i :: 0 <= i < |src| - 1 && !Excluded(src[1..][i].0) ==> src[1..][i].0 !in KeySet(acc)
    ensures forall i :: 0 <= i < |src| - 1 && !Excluded(src[1..][i].0) ==> src[1..][i].0 !in KeySet(acc + [src[0]])
  {
    var x := src[0];
    assert KeySet(acc + [x]) == KeySet(acc) + {x.0} by {
      assert (acc + [x])[|acc|] == x;
      assert forall i :: 0 <= i < |acc| ==> (acc + [x])[i] == acc[i];
    }
    forall i | 0 <= i < |src| - 1 && !Excluded(src[1..][i].0)
      ensures src[1..][i].0 !in KeySet(acc) + {x.0}
    {
      assert src[1..][i] == src[i + 1];
      assert x.0 != src[i + 1].0;
    }
  }

  /** With distinct source keys none of which the record holds yet, the merge
      appends exactly the copied fields. */
  lemma {:induction false} MergeAppends(acc: Fields, src: Fields)
    requires UniqueKeys(src)
    requires forall i :: 0 <= i < |src| && !Excluded(src[i].0) ==> src[i].0 !in KeySet(acc)
    ensures Merge(acc, src) == acc + Copied(src)
    decreases |src|
  {
    if src == [] {
      assert acc + Copied(src) == acc + [] == acc;
    } else {
      UniqueTail(src);
      StillFresh(acc, src);
      if Excluded(src[0].0) {
        MergeAppends(acc, src[1..]);
        MergeSkip(acc, src);
      } else {
        MergeAppends(acc + [src[0]], src[1..]);
        MergeTake(acc, src);
      }
    }
  }

  /** The tail of a list with distinct keys has distinct keys, none equal to the head's. */
  lemma UniqueTail(src: Fields)
    requires src != [] && UniqueKeys(src)
    ensures UniqueKeys(src[1..])
    ensures forall i :: 0 <= i < |src| - 1 ==> src[1..][i] == src[i + 1] && src[i + 1].0 != src[0].0
  {
  }

  /** The insert record holds the target post as `ID`, no `guid`, and every
      other source field unchanged. */
  lemma InsertRecordFields(targetPost: Id, src: Fields)
    requires UniqueKeys(src)
    ensures InsertRecord(targetPost, src) == [("ID", IdValue(targetPost))] + Copied(src)
    ensures Get(InsertRecord(targetPost, src), "ID") == IdValue(targetPost)
    ensures "guid" !in KeySet(InsertRecord(targetPost, src))
    ensures forall k :: !Excluded(k) ==> Get(InsertRecord(targetPost, src), k) == Get(src, k)
  {
    var head := [("ID", IdValue(targetPost))];
    assert KeySet(head) == {"ID"} by {
      KeySetCons(head[0], []);
      assert head == [head[0]] + [];
    }
    MergeAppends(head, src);
    var c := Copied(src);
    var r := head + c;
    assert Get(r, "ID") == IdValue(targetPost) by {
      GetCons(head[0], c, "ID");
    }
    assert "guid" !in KeySet(r) by {
      KeySetCons(head[0], c);
      assert "guid" !in KeySet(c);
    }
    forall k | !Excluded(k) ensures Get(r, k) == Get(src, k) {
      GetCons(head[0], c, k);
      GetCopied(src, k);
    }
  }

  // ---------------------------------------------------------------------------
  // The environment

  /** A `wp:acf` block found in post content: the JSON text the pattern matched
      and the block's decoded `data` object (None when the JSON has no `data`). */
  datatype Block = Block(raw: string, data: Option<Fields>)

  /** What `copy_post` asks of WordPress, ACF and PHP's libraries. */
  datatype Env = Env(
    host: Host,                                  // the target site, for upload_image
    blogPrefix: Id -> string,                    // $wpdb->get_blog_prefix
    getVar: string -> Value,                     // $wpdb->get_var
    blocks: string -> seq<Block>,                // preg_match_all and json_decode of each match
    splice: (string, string, Option<Fields>) -> string, // re-encode the block and str_replace it
    fieldType: Value -> string,                  // get_field_object($key)['type'], "" when none
    acfActive: bool,                             // function_exists('get_field_object')
    metaFieldType: string -> string,             // get_field_object($meta_key, $source_post)['type']
    sourceAttachment: string -> Option<string>,  // URL of the source attachment a meta value names
    insertPost: Fields -> Id)                    // wp_insert_post

  predicate IsFileField(t: string) {
    t == "file" || t == "image"
  }

  // ---------------------------------------------------------------------------
  // copy_acf_blocks

  /** One key of a block's `data`: a key `_x` names field `x`, whose value is
      re-uploaded when the key's field is a file or image field and the value
      is numeric, and written back unchanged otherwise. */
  function RewriteField(key: string, fieldKey: Value, cur: Fields, m: Media, sourceBlog: Id, env: Env): (r: (Fields, Media))
    ensures !HasPrefix(key, "_") ==> r == (cur, m)
    ensures HasPrefix(key, "_") ==> forall k :: k != LTrim(key, '_') ==> Get(r.0, k) == Get(cur, k)
    ensures HasPrefix(key, "_") && !(IsFileField(env.fieldType(fieldKey)) && IsNumeric(Get(cur, LTrim(key, '_')))) ==>
      r.1 == m && Get(r.0, LTrim(key, '_')) == Get(cur, LTrim(key, '_'))
    // a numeric value of a file or image field becomes what uploading the
    // source attachment's GUID gives, and the media are those after the upload
    ensures HasPrefix(key, "_") && IsFileField(env.fieldType(fieldKey)) && IsNumeric(Get(cur, LTrim(key, '_'))) ==>
      var guid := env.getVar(QueryText(GuidQuery(Get(cur, LTrim(key, '_'))), env.blogPrefix(sourceBlog)));
      var up := UploadResult(m, ToPhpString(guid), 0, false, false, env.host);
      Get(r.0, LTrim(key, '_')) == UploadValue(up.0) && r.1 == up.1
    ensures r.1.nextId >= m.nextId
    ensures MediaValid(m) ==> MediaValid(r.1) && MarkersKept(m, r.1)
  {
    if !HasPrefix(key, "_") then (cur, m)
    else
      var name := LTrim(key, '_');
      var was := Get(cur, name);
      if IsFileField(env.fieldType(fieldKey)) && IsNumeric(was) then
        var url := env.getVar(QueryText(GuidQuery(was), env.blogPrefix(sourceBlog)));
        var up := UploadResult(m, ToPhpString(url), 0, false, false, env.host);
        (Set(cur, name, UploadValue(up.0)), up.1)
      else (Set(cur, name, was), m)
  }

  /** The rewrite of a block's `data` from key `i` of the original on; every
      key is read from the data as rewritten so far. */
  function RewriteData(orig: Fields, i: nat, cur: Fields, m: Media, sourceBlog: Id, env: Env): (r: (Fields, Media))
    requires i <= |orig|
    ensures r.1.nextId >= m.nextId
    ensures MediaValid(m) ==> MediaValid(r.1) && MarkersKept(m, r.1)
    decreases |orig| - i
  {
    if i == |orig| then (cur, m)
    else
      var step := RewriteField(orig[i].0, orig[i].1, cur, m, sourceBlog, env);
      RewriteData(orig, i + 1, step.0, step.1, sourceBlog, env)
  }

  /** A field no `_` key names keeps its value. */
  lemma {:induction false} RewriteKeepsUnnamed(orig: Fields, i: nat, cur: Fields, m: Media, sourceBlog: Id, env: Env, k: string)
    requires i <= |orig|
    requires forall j :: i <= j < |orig| && HasPrefix(orig[j].0, "_") ==> LTrim(orig[j].0, '_') != k
    ensures Get(RewriteData(orig, i, cur, m, sourceBlog, env).0, k) == Get(cur, k)
    decreases |orig| - i
  {
    if i < |orig| {
      var step := RewriteField(orig[i].0, orig[i].1, cur, m, sourceBlog, env);
      RewriteKeepsUnnamed(orig, i + 1, step.0, step.1, sourceBlog, env, k);
    }
  }

  /** Data whose `_` keys name no file or image field is written back as it
      was, and nothing is uploaded. */
  lemma {:induction false} RewriteWithoutFileFields(orig: Fields, i: nat, cur: Fields, m: Media, sourceBlog: Id, env: Env)
    requires i <= |orig|
    requires forall j :: i <= j < |orig| && HasPrefix(orig[j].0, "_") ==> !IsFileField(env.fieldType(orig[j].1))
    ensures RewriteData(orig, i, cur, m, sourceBlog, env).1 == m
    ensures forall k :: Get(RewriteData(orig, i, cur, m, sourceBlog, env).0, k) == Get(cur, k)
    decreases |orig| - i
  {
    if i < |orig| {
      var step := RewriteField(orig[i].0, orig[i].1, cur, m, sourceBlog, env);
      assert step.1 == m && forall k :: Get(step.0, k) == Get(cur, k);
      RewriteWithoutFileFields(orig, i + 1, step.0, step.1, sourceBlog, env);
    }
  }

  /** One matched block: its `data` rewritten when it has one. */
  function RewriteBlock(b: Block, m: Media, sourceBlog: Id, env: Env): (r: (Option<Fields>, Media))
    ensures r.0.None? <==> b.data.None?
    ensures b.data.None? ==> r.1 == m
    ensures r.1.nextId >= m.nextId
    ensures MediaValid(m) ==> MediaValid(r.1) && MarkersKept(m, r.1)
  {
    if b.data.None? then (None, m)
    else
      var d := RewriteData(b.data.value, 0, b.data.value, m, sourceBlog, env);
      (Some(d.0), d.1)
  }

  /** The data each block from `i` on is written back with, and the media after
      their uploads, block by block in order. The text plays no part. */
  function BlockData(blocks: seq<Block>, i: nat, m: Media, sourceBlog: Id, env: Env): (r: (seq<Option<Fields>>, Media))
    requires i <= |blocks|
    ensures |r.0| == |blocks| - i
    ensures forall k :: 0 <= k < |r.0| ==> (r.0[k].None? <==> blocks[i + k].data.None?)
    ensures r.1.nextId >= m.nextId
    ensures MediaValid(m) ==> MediaValid(r.1) && MarkersKept(m, r.1)
    decreases |blocks| - i
  {
    if i == |blocks| then ([], m)
    else
      var b := RewriteBlock(blocks[i], m, sourceBlog, env);
      var rest := BlockData(blocks, i + 1, b.1, sourceBlog, env);
      ([b.0] + rest.0, rest.1)
  }

  /** The raw text of each block from `i` on. */
  function Raws(blocks: seq<Block>, i: nat): (r: seq<string>)
    requires i <= |blocks|
    ensures |r| == |blocks| - i && forall k :: 0 <= k < |r| ==> r[k] == blocks[i + k].raw
  {
    seq(|blocks| - i, k requires 0 <= k < |blocks| - i => blocks[i + k].raw)
  }

  /** Each raw block text replaced in turn, by `str_replace`, with its data re-encoded. */
  function SpliceAll(content: string, raws: seq<string>, data: seq<Option<Fields>>, env: Env): string
    requires |raws| == |data|
    decreases |raws|
  {
    if raws == [] then content
    else SpliceAll(env.splice(content, raws[0], data[0]), raws[1..], data[1..], env)
  }

  /** The blocks from `i` on, each spliced back into the content in turn; the
      text is described by `RewriteBlocksSplices`. */
  function RewriteBlocks(content: string, blocks: seq<Block>, i: nat, m: Media, sourceBlog: Id, env: Env): (r: (string, Media))
    requires i <= |blocks|
    ensures r.1.nextId >= m.nextId
    ensures MediaValid(m) ==> MediaValid(r.1) && MarkersKept(m, r.1)
    decreases |blocks| - i
  {
    if i == |blocks| then (content, m)
    else
      var b := RewriteBlock(blocks[i], m, sourceBlog, env);
      RewriteBlocks(env.splice(content, blocks[i].raw, b.0), blocks, i + 1, b.1, sourceBlog, env)
  }

  /** The block loop's text is every block's raw text replaced, in order, by its
      rewritten data, and its media are those after all the blocks' uploads:
      the data do not depend on the text they are spliced into. */
  lemma {:induction false} RewriteBlocksSplices(content: string, blocks: seq<Block>, i: nat, m: Media, sourceBlog: Id, env: Env)
    requires i <= |blocks|
    ensures var d := BlockData(blocks, i, m, sourceBlog, env);
      RewriteBlocks(content, blocks, i, m, sourceBlog, env) == (SpliceAll(content, Raws(blocks, i), d.0, env), d.1)
    decreases |blocks| - i
  {
    if i < |blocks| {
      var b := RewriteBlock(blocks[i], m, sourceBlog, env);
      RewriteBlocksSplices(env.splice(content, blocks[i].raw, b.0), blocks, i + 1, b.1, sourceBlog, env);
      RewriteBlocksStep(content, blocks, i, m, sourceBlog, env);
    }
  }

  /** `SpliceAll` and `BlockData` from `i` take block `i` first, then the rest. */
  lemma RewriteBlocksStep(content: string, blocks: seq<Block>, i: nat, m: Media, sourceBlog: Id, env: Env)
    requires i < |blocks|
    ensures var b := RewriteBlock(blocks[i], m, sourceBlog, env);
      var d := BlockData(blocks, i, m, sourceBlog, env);
      var rest := BlockData(blocks, i + 1, b.1, sourceBlog, env);
      && d.1 == rest.1
      && SpliceAll(content, Raws(blocks, i), d.0, env)
         == SpliceAll(env.splice(content, blocks[i].raw, b.0), Raws(blocks, i + 1), rest.0, env)
  {
    var b := RewriteBlock(blocks[i], m, sourceBlog, env);
    var d := BlockData(blocks, i, m, sourceBlog, env);
    var rest := BlockData(blocks, i + 1, b.1, sourceBlog, env);
    assert d.0 == [b.0] + rest.0;
    assert d.0[1..] == rest.0;
    assert Raws(blocks, i)[1..] == Raws(blocks, i + 1);
  }

  /** `cleanup_post_content`: content without a `wp:acf` block comes back as it
      was (even when it is not a string); otherwise every block's raw text is
      replaced by its rewritten data and the result is a string. */
  function ContentResult(content: Value, m: Media, sourceBlog: Id, env: Env): (r: (Value, Media))
    ensures env.blocks(ToPhpString(content)) == [] ==> r == (content, m)
    ensures var blocks := env.blocks(ToPhpString(content));
      var d := BlockData(blocks, 0, m, sourceBlog, env);
      blocks != [] ==> r == (Text(SpliceAll(ToPhpString(content), Raws(blocks, 0), d.0, env)), d.1)
    ensures r.1.nextId >= m.nextId
    ensures MediaValid(m) ==> MediaValid(r.1) && MarkersKept(m, r.1)
  {
    var text := ToPhpString(content);
    var blocks := env.blocks(text);
    if blocks == [] then (content, m)
    else
      var r := RewriteBlocks(text, blocks, 0, m, sourceBlog, env);
      RewriteBlocksSplices(text, blocks, 0, m, sourceBlog, env);
      (Text(r.0), r.1)
  }

  // ---------------------------------------------------------------------------
  // cleanup_post_meta

  /** `get_post_custom`: every meta key with its list of values, in order. */
  type MetaTable = seq<(string, seq<string>)>

  /** Post meta on the target site, by (post, key). */
  type PostMeta = map<(Id, string), Value>

  /** `unset($table[$k])`. */
  function Unset(table: MetaTable, k: string): (r: MetaTable)
    ensures forall i :: 0 <= i < |r| ==> r[i].0 != k
    // exactly the entries under other keys are kept
    ensures forall e :: e in r <==> e in table && e.0 != k
    ensures |r| <= |table|
  {
    if table == [] then []
    else
      var rest := Unset(table[1..], k);
      assert table == [table[0]] + table[1..];
      (if table[0].0 == k then [] else [table[0]]) + rest
  }

  /** No two entries of a `get_post_custom` table share a key. */
  predicate UniqueMetaKeys(table: MetaTable) {
    forall i, j :: 0 <= i < j < |table| ==> table[i].0 != table[j].0
  }

  /** A table without the key is kept whole, in order. */
  lemma {:induction false} UnsetAbsent(table: MetaTable, k: string)
    requires forall i :: 0 <= i < |table| ==> table[i].0 != k
    ensures Unset(table, k) == table
  {
    if table != [] {
      UnsetAbsent(table[1..], k);
      assert table == [table[0]] + table[1..];
    }
  }

  /** With distinct keys, unsetting removes just the entry under the key and
      keeps every other entry in order. */
  lemma {:induction false} UnsetRemovesEntry(table: MetaTable, k: string, i: nat)
    requires UniqueMetaKeys(table) && i < |table| && table[i].0 == k
    ensures Unset(table, k) == table[..i] + table[i + 1..]
  {
    UniqueMetaTail(table);
    UnsetHead(table, k);
    if i == 0 {
      OnlyHeadHasKey(table, k);
      UnsetAbsent(table[1..], k);
    } else {
      assert table[0].0 != k;
      UnsetRemovesEntry(table[1..], k, i - 1);
      SpliceTail(table, i);
    }
  }

  /** One step of `Unset`: the first entry is dropped or kept. */
  lemma UnsetHead(table: MetaTable, k: string)
    requires table != []
    ensures Unset(table, k) == (if table[0].0 == k then [] else [table[0]]) + Unset(table[1..], k)
  {
  }

  /** Dropping the first entry keeps the keys unique. */
  lemma UniqueMetaTail(table: MetaTable)
    requires UniqueMetaKeys(table) && table != []
    ensures UniqueMetaKeys(table[1..])
  {
    assert forall j :: 0 <= j < |table[1..]| ==> table[1..][j] == table[j + 1];
  }

  /** Under unique keys, the key of the first entry occurs nowhere after it. */
  lemma OnlyHeadHasKey(table: MetaTable, k: string)
    requires UniqueMetaKeys(table) && table != [] && table[0].0 == k
    ensures forall j :: 0 <= j < |table[1..]| ==> table[1..][j].0 != k
  {
    assert forall j :: 0 <= j < |table[1..]| ==> table[1..][j] == table[j + 1];
  }

  /** Re-attaching the first entry to the tail with its entry `i - 1` cut out. */
  lemma SpliceTail(table: MetaTable, i: nat)
    requires 0 < i < |table|
    ensures [table[0]] + (table[1..][..i - 1] + table[1..][i..]) == table[..i] + table[i + 1..]
  {
    assert table[1..][..i - 1] == table[1..i] && table[1..][i..] == table[i + 1..];
    assert table[..i] == [table[0]] + table[1..i];
  }

  /** The value written for meta value `v` under `key`, the media after it, and
      the attachment URL in force afterwards. A value that is not a positive
      number is written as it is. Otherwise the URL is that of the source
      attachment it names when `key` is an ACF file or image field, else the
      URL handed in, and a URL in force is uploaded and its result written. */
  function MetaValue(key: string, v: string, url: Option<string>, m: Media, target: Id, env: Env): (r: (Value, Media, Option<string>))
    ensures !IsPositiveNumeric(v) ==> r == (Text(v), m, url)
    ensures r.2.None? ==> r.0 == Text(v) && r.1 == m
    // a file or image value naming a source attachment puts that attachment's URL in force
    ensures IsPositiveNumeric(v) && IsFileField(env.metaFieldType(key)) && env.sourceAttachment(v).Some? ==> r.2 == env.sourceAttachment(v)
    // a positive number with a URL in force is written as the upload of that URL
    ensures IsPositiveNumeric(v) && r.2.Some? ==>
      var up := UploadResult(m, r.2.value, target, false, false, env.host);
      r.0 == UploadValue(up.0) && r.1 == up.1
    ensures r.1.thumbnails == m.thumbnails
    ensures r.1.nextId >= m.nextId
    ensures MediaValid(m) ==> MediaValid(r.1)
  {
    if !IsPositiveNumeric(v) then (Text(v), m, url)
    else
      var found := if IsFileField(env.metaFieldType(key)) then env.sourceAttachment(v) else None;
      var u := if found.Some? then found else url;
      if u.None? then (Text(v), m, u)
      else
        var up := UploadResult(m, u.value, target, false, false, env.host);
        (UploadValue(up.0), up.1, u)
  }

  /** One pass of the inner loop: nothing without ACF, else `update_post_meta`.
      With `carry` the attachment URL survives into the next value, as the
      code is written; without it every value starts with none. */
  function MetaWrite(key: string, v: string, meta: PostMeta, m: Media, url: Option<string>, target: Id, env: Env, carry: bool): (r: (PostMeta, Media, Option<string>))
    ensures !env.acfActive ==> r.0 == meta && r.1 == m
    ensures !carry ==> r.2.None?
    ensures env.acfActive ==> (target, key) in r.0
    ensures forall p :: p != (target, key) ==> (p in r.0 <==> p in meta) && (p in meta ==> r.0[p] == meta[p])
    ensures r.1.thumbnails == m.thumbnails
    ensures r.1.nextId >= m.nextId
    ensures MediaValid(m) ==> MediaValid(r.1)
  {
    var u := if carry then url else None;
    if !env.acfActive then (meta, m, u)
    else
      var s := MetaValue(key, v, u, m, target, env);
      (meta[(target, key) := s.0], s.1, if carry then s.2 else None)
  }

  /** With ACF present and the URL carried, the value is written under `key`. */
  lemma MetaWriteActive(key: string, v: string, meta: PostMeta, m: Media, url: Option<string>, target: Id, env: Env)
    requires env.acfActive
    ensures var s := MetaValue(key, v, url, m, target, env);
      MetaWrite(key, v, meta, m, url, target, env, true) == (meta[(target, key) := s.0], s.1, s.2)
  {
  }

  /** The values of one key from `j` on. */
  function ValuesRun(key: string, vs: seq<string>, j: nat, meta: PostMeta, m: Media, url: Option<string>, target: Id, env: Env, carry: bool): (r: (PostMeta, Media, Option<string>))
    requires j <= |vs|
    ensures !env.acfActive ==> r.0 == meta && r.1 == m
    ensures !carry && url.None? ==> r.2.None?
    ensures forall p :: p != (target, key) ==> (p in r.0 <==> p in meta) && (p in meta ==> r.0[p] == meta[p])
    ensures r.1.thumbnails == m.thumbnails
    ensures r.1.nextId >= m.nextId
    ensures MediaValid(m) ==> MediaValid(r.1)
    decreases |vs| - j
  {
    if j == |vs| then (meta, m, url)
    else
      var w := MetaWrite(key, vs[j], meta, m, url, target, env, carry);
      ValuesRun(key, vs, j + 1, w.0, w.1, w.2, target, env, carry)
  }

  /** The keys of the table from `i` on. */
  function KeysRun(table: MetaTable, i: nat, meta: PostMeta, m: Media, url: Option<string>, target: Id, env: Env, carry: bool): (r: (PostMeta, Media))
    requires i <= |table|
    ensures !env.acfActive ==> r == (meta, m)
    ensures r.1.thumbnails == m.thumbnails
    ensures r.1.nextId >= m.nextId
    ensures MediaValid(m) ==> MediaValid(r.1)
    decreases |table| - i
  {
    if i == |table| then (meta, m)
    else
      var w := ValuesRun(table[i].0, table[i].1, 0, meta, m, url, target, env, carry);
      KeysRun(table, i + 1, w.0, w.1, w.2, target, env, carry)
  }

  /** `cleanup_post_meta` as written: `$attachment_url` is never reset, so once
      one value was an attachment every later positive number is replaced by
      an upload of that same attachment. */
  function CleanupMetaAsWritten(table: MetaTable, meta: PostMeta, m: Media, target: Id, env: Env): (r: (PostMeta, Media))
    ensures !env.acfActive ==> r == (meta, m)
    // meta uploads never set a featured image
    ensures r.1.thumbnails == m.thumbnails
    ensures MediaValid(m) ==> MediaValid(r.1)
  {
    KeysRun(Unset(table, "_thumbnail_id"), 0, meta, m, None, target, env, true)
  }

  /** `cleanup_post_meta` as intended: each value is looked at on its own. */
  function CleanupMeta(table: MetaTable, meta: PostMeta, m: Media, target: Id, env: Env): (r: (PostMeta, Media))
    ensures !env.acfActive ==> r == (meta, m)
    ensures r.1.thumbnails == m.thumbnails
    ensures MediaValid(m) ==> MediaValid(r.1)
  {
    KeysRun(Unset(table, "_thumbnail_id"), 0, meta, m, None, target, env, false)
  }

  /** Meta of other posts, and under keys the table does not hold, is left alone. */
  lemma {:induction false} KeysRunLeavesOthers(table: MetaTable, i: nat, meta: PostMeta, m: Media, url: Option<string>, target: Id, env: Env, carry: bool, p: (Id, string))
    requires i <= |table|
    requires p.0 != target || forall j :: i <= j < |table| ==> table[j].0 != p.1
    ensures var r := KeysRun(table, i, meta, m, url, target, env, carry);
      (p in r.0 <==> p in meta) && (p in meta ==> r.0[p] == meta[p])
    decreases |table| - i
  {
    if i < |table| {
      var w := ValuesRun(table[i].0, table[i].1, 0, meta, m, url, target, env, carry);
      assert p != (target, table[i].0);
      KeysRunLeavesOthers(table, i + 1, w.0, w.1, w.2, target, env, carry, p);
    }
  }

  /** `_thumbnail_id` is never copied as meta (the featured image is set apart),
      by the copy as written and as intended alike. */
  lemma ThumbnailIdNotCopied(table: MetaTable, meta: PostMeta, m: Media, target: Id, env: Env)
    ensures var r := CleanupMetaAsWritten(table, meta, m, target, env);
      ((target, "_thumbnail_id") in r.0 <==> (target, "_thumbnail_id") in meta)
      && ((target, "_thumbnail_id") in meta ==> r.0[(target, "_thumbnail_id")] == meta[(target, "_thumbnail_id")])
    ensures var r := CleanupMeta(table, meta, m, target, env);
      ((target, "_thumbnail_id") in r.0 <==> (target, "_thumbnail_id") in meta)
      && ((target, "_thumbnail_id") in meta ==> r.0[(target, "_thumbnail_id")] == meta[(target, "_thumbnail_id")])
  {
    KeysRunLeavesOthers(Unset(table, "_thumbnail_id"), 0, meta, m, None, target, env, true, (target, "_thumbnail_id"));
    KeysRunLeavesOthers(Unset(table, "_thumbnail_id"), 0, meta, m, None, target, env, false, (target, "_thumbnail_id"));
  }

  /** A meta value that is replaced by an upload when looked at on its own. */
  predicate Replaced(key: string, v: string, env: Env) {
    IsPositiveNumeric(v) && IsFileField(env.metaFieldType(key)) && env.sourceAttachment(v).Some?
  }

  /** Reference: every value written as it is, in order. */
  function PlainValues(key: string, vs: seq<string>, j: nat, meta: PostMeta, target: Id): PostMeta
    requires j <= |vs|
    decreases |vs| - j
  {
    if j == |vs| then meta else PlainValues(key, vs, j + 1, meta[(target, key) := Text(vs[j])], target)
  }

  function PlainKeys(table: MetaTable, i: nat, meta: PostMeta, target: Id): PostMeta
    requires i <= |table|
    decreases |table| - i
  {
    if i == |table| then meta else PlainKeys(table, i + 1, PlainValues(table[i].0, table[i].1, 0, meta, target), target)
  }

  lemma {:induction false} PlainValuesCopied(key: string, vs: seq<string>, j: nat, meta: PostMeta, m: Media, target: Id, env: Env, carry: bool)
    requires j <= |vs| && env.acfActive
    requires forall k :: j <= k < |vs| ==> !Replaced(key, vs[k], env)
    ensures ValuesRun(key, vs, j, meta, m, None, target, env, carry) == (PlainValues(key, vs, j, meta, target), m, None)
    decreases |vs| - j
  {
    if j < |vs| {
      var w := MetaWrite(key, vs[j], meta, m, None, target, env, carry);
      assert w == (meta[(target, key) := Text(vs[j])], m, None);
      PlainValuesCopied(key, vs, j + 1, w.0, m, target, env, carry);
    }
  }

  lemma {:induction false} PlainKeysCopied(table: MetaTable, i: nat, meta: PostMeta, m: Media, target: Id, env: Env, carry: bool)
    requires i <= |table| && env.acfActive
    requires forall a, k :: i <= a < |table| && 0 <= k < |table[a].1| ==> !Replaced(table[a].0, table[a].1[k], env)
    ensures KeysRun(table, i, meta, m, None, target, env, carry) == (PlainKeys(table, i, meta, target), m)
    decreases |table| - i
  {
    if i < |table| {
      PlainValuesCopied(table[i].0, table[i].1, 0, meta, m, target, env, carry);
      PlainKeysCopied(table, i + 1, PlainValues(table[i].0, table[i].1, 0, meta, target), m, target, env, carry);
    }
  }

  /** With ACF present and no value that names a source attachment under a file
      or image field, the meta is copied value for value and nothing is uploaded,
      as written and as intended alike: the carried URL then never gets set. */
  lemma MetaCopiedUnchanged(table: MetaTable, meta: PostMeta, m: Media, target: Id, env: Env)
    requires env.acfActive
    requires forall a, k :: 0 <= a < |table| && 0 <= k < |table[a].1| ==> !Replaced(table[a].0, table[a].1[k], env)
    ensures CleanupMeta(table, meta, m, target, env) == (PlainKeys(Unset(table, "_thumbnail_id"), 0, meta, target), m)
    ensures CleanupMetaAsWritten(table, meta, m, target, env) == CleanupMeta(table, meta, m, target, env)
  {
    var t := Unset(table, "_thumbnail_id");
    forall a, k | 0 <= a < |t| && 0 <= k < |t[a].1| ensures !Replaced(t[a].0, t[a].1[k], env) {
      var b :| 0 <= b < |table| && table[b] == t[a];
    }
    PlainKeysCopied(t, 0, meta, m, target, env, false);
    PlainKeysCopied(t, 0, meta, m, target, env, true);
  }

  /** As written, a positive number under an ACF file or image field naming a
      source attachment puts that attachment's URL in force for what follows. */
  lemma FileFieldPutsUrlInForce(key: string, v: string, meta: PostMeta, m: Media, url: Option<string>, target: Id, env: Env)
    requires env.acfActive && IsPositiveNumeric(v)
    requires IsFileField(env.metaFieldType(key)) && env.sourceAttachment(v).Some?
    ensures ValuesRun(key, [v], 0, meta, m, url, target, env, true).2 == env.sourceAttachment(v)
  {
    var w := MetaWrite(key, v, meta, m, url, target, env, true);
    assert ValuesRun(key, [v], 0, meta, m, url, target, env, true)
        == ValuesRun(key, [v], 1, w.0, w.1, w.2, target, env, true);
  }

  /** As intended, a positive number under an ACF file or image field naming a
      source attachment is written as the upload of that attachment. */
  lemma IntendedUploadsAttachment(key: string, v: string, meta: PostMeta, m: Media, target: Id, env: Env)
    requires env.acfActive && Replaced(key, v, env)
    ensures var up := UploadResult(m, env.sourceAttachment(v).value, target, false, false, env.host);
      var r := ValuesRun(key, [v], 0, meta, m, None, target, env, false);
      (target, key) in r.0 && r.0[(target, key)] == UploadValue(up.0) && r.1 == up.1
  {
    var w := MetaWrite(key, v, meta, m, None, target, env, false);
    assert ValuesRun(key, [v], 0, meta, m, None, target, env, false)
        == ValuesRun(key, [v], 1, w.0, w.1, w.2, target, env, false);
  }

  /** As written, a URL in force replaces any later positive number under a
      key that is not a file or image field by the result of uploading that URL. */
  lemma CarriedUrlReplacesNumber(key: string, v: string, meta: PostMeta, m: Media, url: string, target: Id, env: Env)
    requires env.acfActive && IsPositiveNumeric(v) && !IsFileField(env.metaFieldType(key))
    requires v != StrTok(url, '?')
    ensures var r := ValuesRun(key, [v], 0, meta, m, Some(url), target, env, true).0;
      (target, key) in r && r[(target, key)] != Text(v)
  {
    var w := MetaWrite(key, v, meta, m, Some(url), target, env, true);
    assert w.0[(target, key)] == UploadValue(UploadResult(m, url, target, false, false, env.host).0);
    UploadStoresNoOtherText(m, url, target, false, env.host, v);
    assert ValuesRun(key, [v], 0, meta, m, Some(url), target, env, true)
        == ValuesRun(key, [v], 1, w.0, w.1, w.2, target, env, true);
  }

  /** One key of the table: its values' run, then the rest of the table. */
  lemma KeysRunStep(table: MetaTable, i: nat, meta: PostMeta, m: Media, url: Option<string>, target: Id, env: Env, carry: bool)
    requires i < |table|
    ensures var w := ValuesRun(table[i].0, table[i].1, 0, meta, m, url, target, env, carry);
      KeysRun(table, i, meta, m, url, target, env, carry) == KeysRun(table, i + 1, w.0, w.1, w.2, target, env, carry)
  {
  }

  /** A table of two keys is the second key's run after the first's. */
  lemma TwoKeysRun(k1: string, vs1: seq<string>, k2: string, vs2: seq<string>, meta: PostMeta, m: Media, url: Option<string>, target: Id, env: Env, carry: bool)
    ensures var w1 := ValuesRun(k1, vs1, 0, meta, m, url, target, env, carry);
      var w2 := ValuesRun(k2, vs2, 0, w1.0, w1.1, w1.2, target, env, carry);
      KeysRun([(k1, vs1), (k2, vs2)], 0, meta, m, url, target, env, carry) == (w2.0, w2.1)
  {
    var t := [(k1, vs1), (k2, vs2)];
    var w1 := ValuesRun(k1, vs1, 0, meta, m, url, target, env, carry);
    KeysRunStep(t, 0, meta, m, url, target, env, carry);
    KeysRunStep(t, 1, w1.0, w1.1, w1.2, target, env, carry);
  }

  /** The premises of the carried-URL discrepancy: `k1` is an ACF file or image
      field whose positive number `v1` names a source attachment, and `k2` is
      not such a field and holds a positive number other than that attachment's URL. */
  predicate CarriedUrlSetting(k1: string, v1: string, k2: string, v2: string, env: Env) {
    && env.acfActive && IsPositiveNumeric(v1) && IsPositiveNumeric(v2)
    && k1 != "_thumbnail_id" && k2 != "_thumbnail_id"
    && IsFileField(env.metaFieldType(k1)) && env.sourceAttachment(v1).Some?
    && !IsFileField(env.metaFieldType(k2)) && v2 != StrTok(env.sourceAttachment(v1).value, '?')
  }

  /** As written, the number under the second key becomes an upload of the
      first key's attachment. */
  lemma AsWrittenViews(k1: string, v1: string, k2: string, v2: string, meta: PostMeta, m: Media, target: Id, env: Env)
    requires CarriedUrlSetting(k1, v1, k2, v2, env)
    ensures var r := CleanupMetaAsWritten([(k1, [v1]), (k2, [v2])], meta, m, target, env).0;
      (target, k2) in r && r[(target, k2)] != Text(v2)
  {
    UnsetAbsent([(k1, [v1]), (k2, [v2])], "_thumbnail_id");
    var w1 := ValuesRun(k1, [v1], 0, meta, m, None, target, env, true);
    FileFieldPutsUrlInForce(k1, v1, meta, m, None, target, env);
    CarriedUrlReplacesNumber(k2, v2, w1.0, w1.1, env.sourceAttachment(v1).value, target, env);
    TwoKeysRun(k1, [v1], k2, [v2], meta, m, None, target, env, true);
  }

  /** As intended, the second key keeps its number. */
  lemma IntendedViews(k1: string, v1: string, k2: string, v2: string, meta: PostMeta, m: Media, target: Id, env: Env)
    requires CarriedUrlSetting(k1, v1, k2, v2, env)
    ensures var r := CleanupMeta([(k1, [v1]), (k2, [v2])], meta, m, target, env).0;
      (target, k2) in r && r[(target, k2)] == Text(v2)
  {
    UnsetAbsent([(k1, [v1]), (k2, [v2])], "_thumbnail_id");
    var w1 := ValuesRun(k1, [v1], 0, meta, m, None, target, env, false);
    PlainValuesCopied(k2, [v2], 0, w1.0, w1.1, target, env, false);
    assert PlainValues(k2, [v2], 0, w1.0, target) == w1.0[(target, k2) := Text(v2)];
    TwoKeysRun(k1, [v1], k2, [v2], meta, m, None, target, env, false);
  }

  /** The carried `$attachment_url`: the meta written as coded differs from the
      meta written as intended, whatever the target's media and downloads. */
  lemma CarriedUrlRewritesCount(k1: string, v1: string, k2: string, v2: string, meta: PostMeta, m: Media, target: Id, env: Env)
    requires CarriedUrlSetting(k1, v1, k2, v2, env)
    ensures CleanupMetaAsWritten([(k1, [v1]), (k2, [v2])], meta, m, target, env).0
         != CleanupMeta([(k1, [v1]), (k2, [v2])], meta, m, target, env).0
  {
    AsWrittenViews(k1, v1, k2, v2, meta, m, target, env);
    IntendedViews(k1, v1, k2, v2, meta, m, target, env);
  }

  /** "12" and "5" are positive numbers to `is_numeric($v) && $v > 0`. */
  lemma SmallNumbersArePositive()
    ensures IsPositiveNumeric("12") && IsPositiveNumeric("5")
  {
    assert TrimSpace("12") == "12" && Unsigned("12") == "12";
    assert ExponentAt("12") == 2 && UpTo("12", '.') == "12";
    assert TrimSpace("5") == "5" && Unsigned("5") == "5";
    assert ExponentAt("5") == 1 && UpTo("5", '.') == "5";
  }

  /** An environment where meta key "hero" is an ACF image field and meta
      value "12" names a source attachment; nothing else is an ACF field. */
  function HeroEnv(h: Host): Env {
    Env(h, _ => "", _ => Null, _ => [], (c, _, _) => c, _ => "", true,
        key => if key == "hero" then "image" else "",
        v => if v == "12" then Some("hero.jpg") else None,
        _ => 0)
  }

  /** The concrete case: the image "12" under "hero" followed by the count "5"
      under "views" meets the premises, so "views" is overwritten as written. */
  lemma HeroCountCase(h: Host)
    ensures CarriedUrlSetting("hero", "12", "views", "5", HeroEnv(h))
  {
    var env := HeroEnv(h);
    SmallNumbersArePositive();
    assert "hero" != "_thumbnail_id" && "views" != "_thumbnail_id";
    assert IsFileField(env.metaFieldType("hero")) by {
      assert env.metaFieldType("hero") == "image";
    }
    assert !IsFileField(env.metaFieldType("views")) by {
      assert env.metaFieldType("views") == "";
    }
    assert env.sourceAttachment("12") == Some("hero.jpg");
    assert "5" != StrTok("hero.jpg", '?') by {
      HeroUrlHasNoQuery();
    }
  }

  lemma HeroUrlHasNoQuery()
    ensures StrTok("hero.jpg", '?') == "hero.jpg"
  {
    var u := "hero.jpg";
    assert forall i :: 0 <= i < |u| ==> u[i] != '?';
  }

  // ---------------------------------------------------------------------------
  // copy_post

  /** The target site's posts, post meta and object terms. */
  datatype Site = Site(posts: map<Id, Fields>, meta: PostMeta, terms: map<(Id, string), seq<string>>)

  /** What `copy_post` reads of the source post: `get_post` (its fields in
      order), `get_post_custom`, the full-size featured image URL ("" for
      false) and the term names of each of its taxonomies. */
  datatype SourcePost = SourcePost(fields: Fields, meta: MetaTable, thumbnailUrl: string, taxonomies: seq<(string, seq<string>)>)

  /** `wp_set_object_terms` for the taxonomies from `i` on. */
  function SetTerms(terms: map<(Id, string), seq<string>>, taxonomies: seq<(string, seq<string>)>, i: nat, post: Id): (r: map<(Id, string), seq<string>>)
    requires i <= |taxonomies|
    // other posts' terms are untouched, no entry is removed, and the post gets
    // every listed taxonomy
    ensures forall p :: p in terms ==> p in r
    ensures forall p: (Id, string) :: p.0 != post ==> (p in r <==> p in terms) && (p in terms ==> r[p] == terms[p])
    ensures forall j :: i <= j < |taxonomies| ==> (post, taxonomies[j].0) in r
    decreases |taxonomies| - i
  {
    if i == |taxonomies| then terms
    else SetTerms(terms[(post, taxonomies[i].0) := taxonomies[i].1], taxonomies, i + 1, post)
  }

  /** No taxonomy from `i` on is `tax`. */
  predicate Unlisted(taxonomies: seq<(string, seq<string>)>, i: nat, tax: string) {
    forall k :: i <= k < |taxonomies| ==> taxonomies[k].0 != tax
  }

  /** The terms `wp_set_object_terms` leaves: a taxonomy not listed keeps its
      terms, and a listed one holds the terms of its last listing. */
  lemma {:induction false} SetTermsValues(terms: map<(Id, string), seq<string>>, taxonomies: seq<(string, seq<string>)>, i: nat, post: Id)
    requires i <= |taxonomies|
    ensures var r := SetTerms(terms, taxonomies, i, post);
      forall p: (Id, string) :: Unlisted(taxonomies, i, p.1) ==> (p in r <==> p in terms) && (p in terms ==> r[p] == terms[p])
    ensures var r := SetTerms(terms, taxonomies, i, post);
      forall j :: i <= j < |taxonomies| && Unlisted(taxonomies, j + 1, taxonomies[j].0) ==> r[(post, taxonomies[j].0)] == taxonomies[j].1
    decreases |taxonomies| - i
  {
    if i < |taxonomies| {
      var t := taxonomies[i];
      var next := terms[(post, t.0) := t.1];
      var r := SetTerms(next, taxonomies, i + 1, post);
      assert r == SetTerms(terms, taxonomies, i, post);
      SetTermsValues(next, taxonomies, i + 1, post);
      forall p: (Id, string) | Unlisted(taxonomies, i, p.1)
        ensures (p in r <==> p in terms) && (p in terms ==> r[p] == terms[p])
      {
        assert taxonomies[i].0 != p.1;
        assert Unlisted(taxonomies, i + 1, p.1);
      }
      forall j | i <= j < |taxonomies| && Unlisted(taxonomies, j + 1, taxonomies[j].0)
        ensures r[(post, taxonomies[j].0)] == taxonomies[j].1
      {
        if j == i {
          assert next[(post, t.0)] == t.1;
        }
      }
    }
  }

  /** The record handed to `wp_insert_post`, and the media after the content's blocks. */
  function CopyRecord(sourceBlog: Id, targetPost: Id, src: SourcePost, m: Media, env: Env): (r: (Fields, Media))
    ensures Get(r.0, "ID") == IdValue(targetPost) && Get(r.0, "guid") == Null
    ensures r.1.nextId >= m.nextId
    ensures MediaValid(m) ==> MediaValid(r.1) && MarkersKept(m, r.1)
  {
    var record := InsertRecord(targetPost, src.fields);
    var content := ContentResult(Get(record, "post_content"), m, sourceBlog, env);
    (Set(record, "post_content", content.0), content.1)
  }

  /** The featured-image upload `copy_post` makes for the new post, if any. */
  function FeaturedUpload(src: SourcePost, m: Media, id: Id, env: Env): (r: (Upload, Media))
    // no thumbnail URL: nothing is uploaded
    ensures !TruthyString(src.thumbnailUrl) ==> r == (Failed, m)
    // an attachment becomes the new post's thumbnail; no attachment URL is asked for
    ensures r.0.AttachmentId? ==> r.1.thumbnails == m.thumbnails[id := r.0.id]
    ensures !r.0.AttachmentUrl?
    ensures MediaValid(m) ==> MediaValid(r.1) && MarkersKept(m, r.1)
  {
    if TruthyString(src.thumbnailUrl) then UploadResult(m, src.thumbnailUrl, id, true, false, env.host)
    else (Failed, m)
  }

  /** The meta copy as written (`carry`) or as intended. */
  function MetaCopy(table: MetaTable, meta: PostMeta, m: Media, target: Id, env: Env, carry: bool): (PostMeta, Media) {
    if carry then CleanupMetaAsWritten(table, meta, m, target, env) else CleanupMeta(table, meta, m, target, env)
  }

  /** `copy_post`: the new post's id, the target's media, and the target site.
      With `carry` the meta is copied as written (`CleanupMetaAsWritten`),
      without it as intended (`CleanupMeta`). */
  function CopyPostResult(sourceBlog: Id, targetPost: Id, src: SourcePost, m: Media, s: Site, env: Env, carry: bool): (r: (Id, Media, Site))
    // the post written is the record handed to wp_insert_post, under the id it returned
    ensures r.0 == env.insertPost(CopyRecord(sourceBlog, targetPost, src, m, env).0)
    ensures r.2.posts == s.posts[r.0 := CopyRecord(sourceBlog, targetPost, src, m, env).0]
    // without ACF no meta at all is written
    ensures !env.acfActive ==> r.2.meta == s.meta
    ensures MediaValid(m) ==> MediaValid(r.1)
  {
    var rec := CopyRecord(sourceBlog, targetPost, src, m, env);
    var id := env.insertPost(rec.0);
    var featured := FeaturedUpload(src, rec.1, id, env);
    var meta := MetaCopy(src.meta, s.meta, featured.1, id, env, carry);
    (id, meta.1, Site(s.posts[id := rec.0], meta.0, SetTerms(s.terms, src.taxonomies, 0, id)))
  }

  /** The meta and the media after `copy_post` are those of the chosen meta copy,
      run on the media the featured-image upload left, for the new post's id. */
  lemma CopyPostMeta(sourceBlog: Id, targetPost: Id, src: SourcePost, m: Media, s: Site, env: Env, carry: bool)
    ensures var rec := CopyRecord(sourceBlog, targetPost, src, m, env);
      var id := env.insertPost(rec.0);
      var meta := MetaCopy(src.meta, s.meta, FeaturedUpload(src, rec.1, id, env).1, id, env, carry);
      var r := CopyPostResult(sourceBlog, targetPost, src, m, s, env, carry);
      r.2.meta == meta.0 && r.1 == meta.1
  {
  }

  /** The terms after `copy_post` are those the taxonomy loop sets on the new post. */
  lemma CopyPostTerms(sourceBlog: Id, targetPost: Id, src: SourcePost, m: Media, s: Site, env: Env, carry: bool)
    ensures var r := CopyPostResult(sourceBlog, targetPost, src, m, s, env, carry);
      r.2.terms == SetTerms(s.terms, src.taxonomies, 0, r.0)
  {
  }

  /** The stored copy has the target post as `ID`, no `guid`, the rewritten
      content, and every other field of the source unchanged. */
  lemma CopiedRecord(sourceBlog: Id, targetPost: Id, src: SourcePost, m: Media, env: Env)
    requires UniqueKeys(src.fields)
    ensures var rec := CopyRecord(sourceBlog, targetPost, src, m, env).0;
      && Get(rec, "ID") == IdValue(targetPost)
      && "guid" !in KeySet(rec)
      && Get(rec, "post_content") == ContentResult(Get(src.fields, "post_content"), m, sourceBlog, env).0
      && forall k :: !Excluded(k) && k != "post_content" ==> Get(rec, k) == Get(src.fields, k)
  {
    InsertRecordFields(targetPost, src.fields);
  }

  /** A featured image that uploads to an attachment ends up as the new post's
      thumbnail: the later meta uploads never set one. */
  lemma FeaturedImageKept(sourceBlog: Id, targetPost: Id, src: SourcePost, m: Media, s: Site, env: Env, carry: bool)
    ensures var rec := CopyRecord(sourceBlog, targetPost, src, m, env);
      var id := env.insertPost(rec.0);
      var up := FeaturedUpload(src, rec.1, id, env);
      up.0.AttachmentId? ==>
        var r := CopyPostResult(sourceBlog, targetPost, src, m, s, env, carry);
        id in r.1.thumbnails && r.1.thumbnails[id] == up.0.id
    // and the meta copy leaves the new post's `_thumbnail_id` entry as it was
    ensures var rec := CopyRecord(sourceBlog, targetPost, src, m, env);
      var id := env.insertPost(rec.0);
      var r := CopyPostResult(sourceBlog, targetPost, src, m, s, env, carry);
      ((id, "_thumbnail_id") in r.2.meta <==> (id, "_thumbnail_id") in s.meta)
      && ((id, "_thumbnail_id") in s.meta ==> r.2.meta[(id, "_thumbnail_id")] == s.meta[(id, "_thumbnail_id")])
  {
    var rec := CopyRecord(sourceBlog, targetPost, src, m, env);
    var id := env.insertPost(rec.0);
    ThumbnailIdNotCopied(src.meta, s.meta, FeaturedUpload(src, rec.1, id, env).1, id, env);
  }

  /** The meta copy as written and as intended lead to the same new post, the
      same stored record and the same terms; without ACF to the same state. */
  lemma CopyPostCarryOnlyMeta(sourceBlog: Id, targetPost: Id, src: SourcePost, m: Media, s: Site, env: Env)
    ensures var a := CopyPostResult(sourceBlog, targetPost, src, m, s, env, true);
      var b := CopyPostResult(sourceBlog, targetPost, src, m, s, env, false);
      && a.0 == b.0 && a.2.posts == b.2.posts && a.2.terms == b.2.terms
      && (!env.acfActive ==> a == b)
  {
  }

  /** The target site's posts, post meta and terms, as `copy_post` writes them. */
  class TargetSite {
    var posts: map<Id, Fields>
    var meta: PostMeta
    var terms: map<(Id, string), seq<string>>

    function Value(): Site
      reads this
    {
      Site(posts, meta, terms)
    }

    constructor (s: Site)
      ensures Value() == s
    {
      posts, meta, terms := s.posts, s.meta, s.terms;
    }
  }

  /** A post copier, built from a metabox's argument array. */
  class ClonerCopier {
    var sourcePost: Id
    var sourceBlog: Id
    var targetBlog: Id
    var targetPost: Id

    /** Every key missing from the array reads as false. */
    constructor (args: Metabox)
      ensures sourcePost == OrFalse(args.sourcePost) && sourceBlog == OrFalse(args.sourceBlog)
      ensures targetPost == OrFalse(args.targetPost) && targetBlog == OrFalse(args.targetBlog)
    {
      sourcePost := OrFalse(args.sourcePost);
      sourceBlog := OrFalse(args.sourceBlog);
      targetPost := OrFalse(args.targetPost);
      targetBlog := OrFalse(args.targetBlog);
    }

    /** `copy_post`. Its `isset` guard never fires (every prop defaults to
        false, never null), so the copy always runs. */
    method CopyPost(src: SourcePost, lib: MediaLibrary, site: TargetSite, env: Env) returns (id: Id)
      modifies lib, site
      ensures (id, lib.Value(), site.Value()) == CopyPostResult(sourceBlog, targetPost, src, old(lib.Value()), old(site.Value()), env, true)
    {
      ghost var s0 := site.Value();
      var args := BuildInsertRecord(src.fields);
      var content := CopyAcfBlocks(Get(args, "post_content"), lib, env);
      args := Set(args, "post_content", content);
      ghost var rec := CopyRecord(sourceBlog, targetPost, src, old(lib.Value()), env);
      assert (args, lib.Value()) == rec;
      id := env.insertPost(args);
      site.posts := site.posts[id := args];
      if TruthyString(src.thumbnailUrl) {
        var featured := UploadImage(lib, src.thumbnailUrl, id, true, false, env.host);
      }
      assert lib.Value() == FeaturedUpload(src, rec.1, id, env).1;
      assert site.Value() == Site(s0.posts[id := rec.0], s0.meta, s0.terms);
      CleanupPostMeta(src.meta, id, lib, site, env);
      SetTaxonomies(id, src.taxonomies, site);
    }

    /** The taxonomy loop: `wp_set_object_terms` for each taxonomy in turn. */
    method SetTaxonomies(id: Id, taxonomies: seq<(string, seq<string>)>, site: TargetSite)
      modifies site
      ensures site.terms == SetTerms(old(site.terms), taxonomies, 0, id)
      ensures site.posts == old(site.posts) && site.meta == old(site.meta)
    {
      var i := 0;
      while i < |taxonomies|
        invariant 0 <= i <= |taxonomies|
        invariant SetTerms(site.terms, taxonomies, i, id) == SetTerms(old(site.terms), taxonomies, 0, id)
        invariant site.posts == old(site.posts) && site.meta == old(site.meta)
      {
        site.terms := site.terms[(id, taxonomies[i].0) := taxonomies[i].1];
        i := i + 1;
      }
    }

    /** The record loop: `ID` first, then every source field that is neither
        excluded nor already set. */
    method BuildInsertRecord(src: Fields) returns (args: Fields)
      ensures args == InsertRecord(targetPost, src)
    {
      args := Set([], "ID", IdValue(targetPost));
      var i := 0;
      while i < |src|
        invariant 0 <= i <= |src|
        invariant Merge(args, src[i..]) == InsertRecord(targetPost, src)
      {
        var key := src[i].0;
        if !Excluded(key) && !Isset(args, key) {
          args := Set(args, key, src[i].1);
        }
        assert src[i..][1..] == src[i + 1..];
        i := i + 1;
      }
    }

    /** One key of the field loop: a `_` key naming a file or image field whose
        value is an attachment id gets that attachment re-uploaded from the
        source site's GUID. */
    method RewriteKey(key: string, fieldKey: Value, cur: Fields, lib: MediaLibrary, env: Env) returns (next: Fields)
      modifies lib
      ensures (next, lib.Value()) == RewriteField(key, fieldKey, cur, old(lib.Value()), sourceBlog, env)
    {
      next := cur;
      if HasPrefix(key, "_") {
        var name := LTrim(key, '_');
        var newValue := Get(cur, name);
        if IsFileField(env.fieldType(fieldKey)) && IsNumeric(newValue) {
          var imageUrl := ReturnDbVar(Some(GuidQuery(newValue)), sourceBlog, env);
          var uploaded := UploadImage(lib, ToPhpString(imageUrl), 0, false, false, env.host);
          newValue := UploadValue(uploaded);
        }
        next := Set(cur, name, newValue);
      }
    }

    /** The field loop over one block's decoded `data`: every `_` key naming a
        file or image field whose value is an attachment id is re-uploaded. */
    method RewriteBlockData(orig: Fields, lib: MediaLibrary, env: Env) returns (cur: Fields)
      modifies lib
      ensures (cur, lib.Value()) == RewriteData(orig, 0, orig, old(lib.Value()), sourceBlog, env)
    {
      cur := orig;
      var j := 0;
      while j < |orig|
        invariant 0 <= j <= |orig|
        invariant RewriteData(orig, j, cur, lib.Value(), sourceBlog, env) == RewriteData(orig, 0, orig, old(lib.Value()), sourceBlog, env)
      {
        cur := RewriteKey(orig[j].0, orig[j].1, cur, lib, env);
        j := j + 1;
      }
    }

    /** `copy_acf_blocks` on the target site, splicing each rewritten block into the content. */
    method CopyAcfBlocks(content: Value, lib: MediaLibrary, env: Env) returns (r: Value)
      modifies lib
      ensures (r, lib.Value()) == ContentResult(content, old(lib.Value()), sourceBlog, env)
    {
      var text := ToPhpString(content);
      var matches := env.blocks(text);
      if matches == [] {
        return content;
      }
      ghost var goal := RewriteBlocks(text, matches, 0, lib.Value(), sourceBlog, env);
      var i := 0;
      while i < |matches|
        invariant 0 <= i <= |matches|
        invariant RewriteBlocks(text, matches, i, lib.Value(), sourceBlog, env) == goal
      {
        ghost var block := RewriteBlock(matches[i], lib.Value(), sourceBlog, env);
        var data := matches[i].data;
        if data.Some? {
          var cur := RewriteBlockData(data.value, lib, env);
          data := Some(cur);
        }
        assert (data, lib.Value()) == block;
        text := env.splice(text, matches[i].raw, data);
        i := i + 1;
      }
      r := Text(text);
    }

    /** `cleanup_post_meta`: one attachment URL variable for the whole of both
        loops, never reset, as the code is written. */
    method CleanupPostMeta(table: MetaTable, target: Id, lib: MediaLibrary, site: TargetSite, env: Env)
      modifies lib, site
      ensures (site.meta, lib.Value()) == CleanupMetaAsWritten(table, old(site.meta), old(lib.Value()), target, env)
      ensures site.posts == old(site.posts) && site.terms == old(site.terms)
    {
      var t := Unset(table, "_thumbnail_id");
      ghost var goal := KeysRun(t, 0, site.meta, lib.Value(), None, target, env, true);
      var attachmentUrl: Option<string> := None;
      var i := 0;
      while i < |t|
        invariant 0 <= i <= |t|
        invariant KeysRun(t, i, site.meta, lib.Value(), attachmentUrl, target, env, true) == goal
        invariant site.posts == old(site.posts) && site.terms == old(site.terms)
      {
        attachmentUrl := CopyMetaValues(t[i].0, t[i].1, attachmentUrl, target, lib, site, env);
        i := i + 1;
      }
    }

    /** The inner meta loop: every value of one key in turn, the attachment
        URL passed from each value to the next. */
    method CopyMetaValues(key: string, values: seq<string>, url: Option<string>, target: Id, lib: MediaLibrary, site: TargetSite, env: Env) returns (next: Option<string>)
      modifies lib, site
      ensures (site.meta, lib.Value(), next) == ValuesRun(key, values, 0, old(site.meta), old(lib.Value()), url, target, env, true)
      ensures site.posts == old(site.posts) && site.terms == old(site.terms)
    {
      ghost var goal := ValuesRun(key, values, 0, site.meta, lib.Value(), url, target, env, true);
      next := url;
      var j := 0;
      while j < |values|
        invariant 0 <= j <= |values|
        invariant ValuesRun(key, values, j, site.meta, lib.Value(), next, target, env, true) == goal
        invariant site.posts == old(site.posts) && site.terms == old(site.terms)
      {
        next := CopyMetaValue(key, values[j], next, target, lib, site, env);
        j := j + 1;
      }
    }

    /** One value of the inner meta loop: skipped without ACF, otherwise
        uploaded when a URL is in force (the one it names as a source
        attachment under a file or image field, else the one carried in `url`),
        and written with `update_post_meta`. `next` is the URL in force after it. */
    method CopyMetaValue(key: string, v: string, url: Option<string>, target: Id, lib: MediaLibrary, site: TargetSite, env: Env) returns (next: Option<string>)
      modifies lib, site
      ensures (site.meta, lib.Value(), next) == MetaWrite(key, v, old(site.meta), old(lib.Value()), url, target, env, true)
      ensures site.posts == old(site.posts) && site.terms == old(site.terms)
    {
      next := url;
      if !env.acfActive {
        return;
      }
      ghost var written := MetaValue(key, v, url, lib.Value(), target, env);
      var value := Text(v);
      if IsPositiveNumeric(v) {
        if IsFileField(env.metaFieldType(key)) && env.sourceAttachment(v).Some? {
          next := env.sourceAttachment(v);
        }
        if next.Some? {
          var uploaded := UploadImage(lib, next.value, target, false, false, env.host);
          value := UploadValue(uploaded);
        }
      }
      assert (value, lib.Value(), next) == written;
      MetaWriteActive(key, v, site.meta, old(lib.Value()), url, target, env);
      site.meta := site.meta[(target, key) := value];
    }

    /** `return_db_var` with the default output: null for empty arguments, else
        `get_var` of the query the loop assembles. */
    method ReturnDbVar(args: Option<DbArgs>, blog: Id, env: Env) returns (r: Value)
      ensures args.None? ==> r == Null
      ensures args.Some? ==> r == env.getVar(QueryText(args.value, env.blogPrefix(blog)))
    {
      if args.None? {
        return Null;
      }
      var a := args.value;
      var from := env.blogPrefix(blog) + a.from;
      var where := "WHERE ";
      var count := 0;
      while count < |a.where|
        invariant 0 <= count <= |a.where|
        invariant where == "WHERE " + Conditions(a.where[..count])
      {
        WhereStep(where, a.where, count);
        if count > 0 {
          where := where + " AND ";
        }
        where := where + Condition(a.where[count]);
        count := count + 1;
      }
      assert a.where[..count] == a.where;
      var query := "SELECT " + a.select + " FROM " + from + " " + where;
      QueryAssembled(a, env.blogPrefix(blog));
      r := env.getVar(query);
    }

    /** `upload_image` on the target site's media library. */
    method UploadImage(lib: MediaLibrary, image: string, parent: Id, featured: bool, returnUrl: bool, h: Host) returns (r: Upload)
      modifies lib
      ensures (r, lib.Value()) == UploadResult(old(lib.Value()), image, parent, featured, returnUrl, h)
    {
      var url := StrTok(image, '?');
      var attachments := LatestMarked(lib.markers, url, lib.nextId);
      var attachId: Id := 0;
      if attachments.Some? {
        attachId := attachments.value;
      } else if Contains(url, SiteHost(h.homeUrl)) {
        attachId := h.urlToPostId(url);
      }
      assert attachId == ExistingAttachment(old(lib.Value()), url, h);
      if attachId == 0 {
        var got := h.fetch(url);
        if Rejected(got) {
          return Failed;
        }
        if h.uploadFails(url) {
          return OriginalUrl(url);
        }
        attachId := lib.nextId;
        lib.nextId := lib.nextId + 1;
        lib.markers := lib.markers[attachId := url];
      }
      ghost var settled := lib.Value();
      if featured {
        lib.thumbnails := lib.thumbnails[parent := attachId];
      }
      r := if returnUrl then AttachmentUrl(h.attachmentUrl(attachId)) else AttachmentId(attachId);
      assert (r, lib.Value()) == Finish(settled, attachId, parent, featured, returnUrl, h);
    }
  }
}
