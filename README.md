# Clarity Cloner, modelled in Dafny

Clarity Cloner is a WordPress multisite plugin. It copies posts between the
sites of a network and keeps track of which posts are copies of one another.
This project models the plugin's core and proves properties of that model:

- **Relationships** (`Cloner_Relationship`). Relationship rows live in a
  network table. Each row holds one group key `"<blog>:<post>"` that maps site
  ids to post ids. The `_rid` post meta points every participating post at its
  row. Adding a target joins the source's row or creates a new one. Removing a
  target takes its site out of the row and deletes its `_rid`.
- **The copier** (`Cloner_Copier`). It builds the insert record from the
  source post's fields, with `ID` pinned and `guid` dropped. It rewrites
  ACF block data and ACF post meta whose file or image fields name an
  attachment, re-uploading the file on the target site. It copies the
  featured image and the taxonomies, builds the `return_db_var` query text,
  and models `upload_image`'s reuse-or-download logic on the target site's
  media.
- **The metaboxes** (`Cloner_Metaboxes`). This covers which panels the editor
  registers, what each panel shows, and the actions copy, overwrite, link and
  unlink. It also covers the AJAX endpoint that processes the panels in
  place, and the search request.
- **The post hooks** (`Cloner_Post`). Deleting a post unlinks it. The
  canonical URL of a copy is the permalink of its counterpart on the main
  site.
- **The autoloader** (`clarity-cloner.php`). It maps a class name to a file
  path.
- **The editor script** (`js/scripts.js`). A three-flag edge detector decides
  when a save has completed. The script then collects one payload per panel.
- **Setup** (`Cloner_Setup`). This covers the activation guard, the settings
  notice, the saved options record with its defaults, and the first-wins
  merge of post-type labels across sites.

WordPress, the database, HTTP and ACF are not called. What the code asks of
them is given as parameters:

- function-typed fields of `Copier.Env`, `Attachments.Host` and
  `Post.Context`;
- explicit `current` site arguments instead of `switch_to_blog`;
- a value model of the relationship table and the post meta
  (`Relationships.Db`, `Copier.Site`).

Where the code changes state in place, the model uses classes whose methods
are proved against specification functions:

- `Store`, `ClonerRelationship`, `MediaLibrary`, `TargetSite`,
  `ClonerCopier`, `ClonerMetaboxes`, `ClonerPost`, `SaveWatcher`,
  `ClonerSetup` and `NetworkOptions`.

Ids are natural numbers. PHP's `false` for "no id" is 0.

Files:

| file | contents |
|---|---|
| `Common.dfy` | Option, ids, the metabox argument array, decimal rendering, group keys |
| `Php.dfy` | PHP values, ordered arrays, `strtok`, `ltrim`, `strpos`, `str_replace`, `is_numeric` |
| `Relationships.dfy` | The relationship store and `Cloner_Relationship` |
| `Attachments.dfy` | `upload_image` and the attachments of a site |
| `Copier.dfy` | `Cloner_Copier` |
| `Metaboxes.dfy` | `Cloner_Metaboxes` |
| `Post.dfy` | `Cloner_Post` |
| `Autoloader.dfy` | The class autoloader |
| `SaveTrigger.dfy` | The editor script's save detection and payloads |
| `Setup.dfy` | `Cloner_Setup` |

## Model

| member | source | states |
|---|---|---|
| `Common.OrFalse` | class/class-cloner-relationship.php:57-60 | A key missing from the argument array reads as false (0); a present key reads as its value |
| `Common.GroupKey` | class/class-cloner-relationship.php:167 | A new row's group key is never empty and always holds the ':' separator |
| `Common.GroupKeyInjective` | class/class-cloner-relationship.php:167 | Two different (blog, post) origins never share a group key |
| `Php.Set` | class/class-cloner-copier.php:84 | Assigning an array key overwrites it in place or appends it; every other key keeps its value, and distinct keys stay distinct |
| `Php.StrTok` | class/class-cloner-copier.php:292 | The URL kept holds no '?'; a URL without '?' comes back unchanged |
| `Php.LTrim` | class/class-cloner-copier.php:158 | `ltrim($key, '_')` removes exactly the leading underscores |
| `Php.ContainsAt` | class/class-cloner-copier.php:310 | `strpos(...) !== false` holds exactly when the needle starts at some offset |
| `Php.StrPos` | class/class-cloner-copier.php:323 | `strpos` gives false exactly when the needle occurs nowhere; otherwise the first offset at which it starts |
| `Php.IsPositiveNumeric` | class/class-cloner-copier.php:218 | `is_numeric($v) && $v > 0`: on a plain decimal integer it holds exactly when some digit is not 0 |
| `Relationships.RidOf` | class/class-cloner-relationship.php:69-89 | The `_rid` of a post on a site: the stored value, or false when unset |
| `Relationships.Resolve` | class/class-cloner-relationship.php:94-129 | Null exactly when post or site is missing; empty exactly when there is no `_rid` or no row; otherwise the row under that rid |
| `Relationships.Add` | class/class-cloner-relationship.php:136-189 | No change unless all four props are set. An existing row gains the target site only when it has no entry for it; otherwise one new 'post' row keyed "blog:post" is inserted. Both `_rid`s point at the rid, and the table invariant is kept |
| `Relationships.Remove` | class/class-cloner-relationship.php:194-221 | No change without a related target. Otherwise only the target site's entry leaves the row and only the target's `_rid` is deleted; the row stays |
| `Relationships.AddJoinsBoth` | class/class-cloner-relationship.php:136-189 | After adding from the source's site, source and target resolve to the same row, which has an entry for the target site |
| `Relationships.AddIdempotent` | class/class-cloner-relationship.php:157-159 | Adding the same target twice changes nothing the second time |
| `Relationships.LinkThenUnlink` | class/class-cloner-relationship.php:136-221 | Linking a fresh target and unlinking it leaves a row with the source alone, and the target in no relationship |
| `Relationships.ClonerRelationship.constructor` | class/class-cloner-relationship.php:43-49 | The props are read from the argument array, with missing keys as false |
| `Relationships.ClonerRelationship.UpdateProps` | class/class-cloner-relationship.php:56-61 | All four props are overwritten; a missing key becomes false |
| `Relationships.ClonerRelationship.GetRelationship` | class/class-cloner-relationship.php:94-106 | A missing argument falls back to the object's own prop; null when either is still missing |
| `Relationships.ClonerRelationship.AddTargetPost` | class/class-cloner-relationship.php:136-189 | The store afterwards equals `Add` of the store before |
| `Relationships.ClonerRelationship.RemoveTargetPost` | class/class-cloner-relationship.php:194-221 | The store afterwards equals `Remove` of the store before |
| `Attachments.LatestMarked` | class/class-cloner-copier.php:295-306 | The newest attachment marked with the URL, and none newer; none when no attachment carries it |
| `Attachments.ExeRejectedAsWritten` | class/class-cloner-copier.php:323 | The test as written, `strpos($type, 'exe') === true`, holds for no content type: `strpos` gives an offset or false, never true |
| `Attachments.ExeRejected` | class/class-cloner-copier.php:323 | The intended test, `strpos($type, 'exe') !== false`, holds exactly when "exe" occurs in the type |
| `Attachments.ExeRejectedMeans` | class/class-cloner-copier.php:323 | The intended test rejects exactly the content types in which "exe" occurs |
| `Attachments.ExeTestNeverFires` | class/class-cloner-copier.php:322-325 | For every content type in which "exe" occurs, `strpos` gives an offset: the intended test rejects it, the test as written lets it pass |
| `Attachments.SiteHost` | class/class-cloner-copier.php:309 | The `str_replace` of "http://", "https://" and "www.", one after the other, never lengthens the home URL |
| `Attachments.SiteHostOfBareHost` | class/class-cloner-copier.php:309 | A home URL without a scheme or "www." is its own host |
| `Attachments.SiteHostIgnoresHttp` | class/class-cloner-copier.php:309 | A leading "http://" does not change the host |
| `Attachments.SiteHostIgnoresHttps` | class/class-cloner-copier.php:309 | A leading "https://" does not change the host, though "http://" is removed first |
| `Attachments.SiteHostIgnoresWww` | class/class-cloner-copier.php:309 | A leading "www." does not change the host |
| `Attachments.ExistingAttachment` | class/class-cloner-copier.php:294-313 | An attachment already marked with the URL is found, and it is the latest such one; an unmarked URL on the site's own host finds the attachment `attachment_url_to_postid` gives it; an unmarked URL off the site's own host finds nothing |
| `Attachments.Rejected` | class/class-cloner-copier.php:322-325 | As written, a download is rejected exactly when it has no content type or a 404 status; the executable test adds nothing |
| `Attachments.RejectedIntended` | class/class-cloner-copier.php:322-325 | As intended, a download is rejected when the written test rejects it or its content type contains "exe", and in no other case |
| `Attachments.Finish` | class/class-cloner-copier.php:371-375 | Nothing is stored; only a featured image sets the parent's thumbnail, to the id returned; an id comes back unless the URL was asked for |
| `Attachments.ExecutableUploadedAsWritten` | class/class-cloner-copier.php:316-368 | A new URL whose download has an "exe" content type and status 200 is stored as a fresh marked attachment, although the intended test rejects it |
| `Attachments.UploadResult` | class/class-cloner-copier.php:290-376 | See the list below this table |
| `Attachments.UploadAgainSameAttachment` | class/class-cloner-copier.php:294-368 | Uploading an image again after it produced an attachment returns the same attachment and changes nothing |
| `Copier.Conditions` | class/class-cloner-copier.php:263-271 | The WHERE conditions are empty exactly when there are no pairs |
| `Copier.QueryText` | class/class-cloner-copier.php:262-273 | The query selects the column from the prefixed table after "WHERE "; with no pairs it ends in a bare " WHERE " |
| `Copier.ConditionsSnoc` | class/class-cloner-copier.php:265-271 | Each WHERE pair adds " AND " and its condition, except the first |
| `Copier.GuidConditions` | class/class-cloner-copier.php:167-175 | The attachment lookup's WHERE clause is `ID = '<id>'`, one " AND ", then `post_type = 'attachment'` |
| `Copier.GuidQueryText` | class/class-cloner-copier.php:254-280 | The GUID lookup reads `guid` from the site's own `posts` table, under the WHERE clause of `Copier.GuidConditions` |
| `Copier.Merge` | class/class-cloner-copier.php:80-86 | A field already set, and `ID` and `guid`, keep the record's value; no key is lost |
| `Copier.InsertRecord` | class/class-cloner-copier.php:72-86 | The record's `ID` is the target post (or false), and it has no `guid` |
| `Copier.MergeAppends` | class/class-cloner-copier.php:80-86 | With distinct source keys, the field loop appends exactly the non-excluded source fields, in order |
| `Copier.InsertRecordFields` | class/class-cloner-copier.php:72-86 | The insert record has `ID` (the target post or false) first, then every source field except `ID` and `guid`, unchanged |
| `Copier.RewriteField` | class/class-cloner-copier.php:154-182 | See the list below this table |
| `Copier.RewriteData` | class/class-cloner-copier.php:153-183 | Rewriting a block's data only ever adds attachments, keeps every existing marker, and keeps the media invariant |
| `Copier.RewriteKeepsUnnamed` | class/class-cloner-copier.php:154-182 | A data field that no `_` key names keeps its value |
| `Copier.RewriteWithoutFileFields` | class/class-cloner-copier.php:161-181 | Data without file or image fields is written back as it was, and nothing is uploaded |
| `Copier.RewriteBlock` | class/class-cloner-copier.php:150-184 | A block whose JSON has no `data` is left as it was and one with `data` gets rewritten data back; existing markers are kept |
| `Copier.BlockData` | class/class-cloner-copier.php:150-184 | One data entry per block from `i` on, empty exactly where the block has no `data`; media only grow and existing markers are kept |
| `Copier.RewriteBlocks` | class/class-cloner-copier.php:148-194 | Media only grow and existing markers are kept (the text is stated by `RewriteBlocksSplices`) |
| `Copier.RewriteBlocksSplices` | class/class-cloner-copier.php:148-194 | The block loop's text is the content with each block's raw text replaced in turn (`str_replace`) by that block's rewritten data, and its media are those after all the blocks' uploads, in block order |
| `Copier.ContentResult` | class/class-cloner-copier.php:124-146 | Content without an ACF block comes back unchanged; otherwise it becomes the string with every block's raw text replaced in order by its rewritten data, and the media are those after all the blocks' uploads; existing markers are kept |
| `Copier.Unset` | class/class-cloner-copier.php:207 | After the unset no entry has the key, and the entries left are exactly the table's entries under other keys |
| `Copier.UnsetAbsent` | class/class-cloner-copier.php:207 | A table without the key is kept whole, in order |
| `Copier.UnsetRemovesEntry` | class/class-cloner-copier.php:207 | With unique keys, the unset cuts out exactly the key's entry and keeps all others in order |
| `Copier.MetaValue` | class/class-cloner-copier.php:218-239 | A value that is not a positive number is written as it is; a positive number under an ACF file or image field naming a source attachment puts that attachment's URL in force; a positive number with a URL in force is written as the value `upload_image` returns for that URL, and the media are those after that upload; without a URL nothing is uploaded; featured images are never touched |
| `Copier.IntendedUploadsAttachment` | class/class-cloner-copier.php:218-239 | As intended, a positive number under an ACF file or image field naming a source attachment is stored under its key as the upload of that attachment, and the media are those after the upload |
| `Copier.MetaWrite` | class/class-cloner-copier.php:211-243 | Without ACF nothing is written; otherwise exactly the (post, key) entry is written |
| `Copier.MetaWriteActive` | class/class-cloner-copier.php:211-243 | With ACF and the URL carried, the value `MetaValue` settles is written under the key, and its URL is passed on |
| `Copier.ValuesRun` | class/class-cloner-copier.php:211-243 | The values of a key write only that key's entry of the target post |
| `Copier.KeysRun` | class/class-cloner-copier.php:210-244 | Without ACF the meta loop changes nothing; thumbnails are never touched |
| `Copier.CleanupMetaAsWritten` | class/class-cloner-copier.php:205-245 | The meta copy as written: without ACF nothing changes; thumbnails are never set; the media invariant is kept |
| `Copier.CleanupMeta` | class/class-cloner-copier.php:205-245 | The meta copy as intended, each value on its own: the same guarantees |
| `Copier.KeysRunLeavesOthers` | class/class-cloner-copier.php:205-245 | Meta of other posts, and keys the table does not hold, are left alone |
| `Copier.ThumbnailIdNotCopied` | class/class-cloner-copier.php:205-244 | Both the meta copy as written and as intended leave the new post's `_thumbnail_id` meta entry as it was: present iff it was, with the same value |
| `Copier.MetaCopiedUnchanged` | class/class-cloner-copier.php:210-244 | With ACF and no attachment-valued file field, the meta is copied value for value and nothing is uploaded, as written and as intended alike |
| `Copier.FileFieldPutsUrlInForce` | class/class-cloner-copier.php:220-228 | As written, a positive number naming a source attachment under an ACF file or image field leaves that attachment's URL in force |
| `Copier.CarriedUrlReplacesNumber` | class/class-cloner-copier.php:229-237 | As written, with a URL in force, a positive number under a key that is not a file or image field is replaced by an upload of that URL |
| `Copier.KeysRunStep` | class/class-cloner-copier.php:210-211 | Each key's values are written before the next key's |
| `Copier.TwoKeysRun` | class/class-cloner-copier.php:210-244 | For a two-key table, the meta loop is the second key's value loop run after the first key's |
| `Copier.AsWrittenViews` | class/class-cloner-copier.php:210-244 | As written, an attachment under a file or image field turns the positive number under the next key into an upload of that attachment |
| `Copier.IntendedViews` | class/class-cloner-copier.php:210-244 | As intended, under the same premises, the next key keeps its number |
| `Copier.CarriedUrlRewritesCount` | class/class-cloner-copier.php:227-237 | Under those premises the meta written as coded differs from the meta written as intended |
| `Copier.SmallNumbersArePositive` | class/class-cloner-copier.php:218 | "12" and "5" pass `is_numeric($v) && $v > 0` |
| `Copier.HeroCountCase` | class/class-cloner-copier.php:227-237 | The image "12" under an ACF image field "hero", then the count "5" under "views", meets those premises |
| `Copier.CopyPostResult` | class/class-cloner-copier.php:53-116 | The post is stored under the id `wp_insert_post` returned, as the record handed to it; without ACF no meta is written; the media invariant is kept. `carry` picks the meta copy as written or as intended (the meta and terms are stated by `CopyPostMeta` and `CopyPostTerms`) |
| `Copier.CopyPostMeta` | class/class-cloner-copier.php:96-103 | The target's meta and the media after the copy are those of the meta copy (`CleanupMetaAsWritten` or `CleanupMeta`, by `carry`) run on the media after the featured-image upload, for the new post's id |
| `Copier.CopyPostTerms` | class/class-cloner-copier.php:105-110 | The target's terms are `SetTerms` of the source post's taxonomies on the new post's id, so (by `SetTermsValues`) each listed taxonomy holds its listed terms and the others keep theirs |
| `Copier.SetTerms` | class/class-cloner-copier.php:105-110 | Every listed taxonomy is set on the post; other posts' terms are untouched and no entry is removed |
| `Copier.SetTermsValues` | class/class-cloner-copier.php:105-110 | A taxonomy not listed keeps its terms (or stays absent); a listed taxonomy holds the terms of its last listing |
| `Copier.CopyPostCarryOnlyMeta` | class/class-cloner-copier.php:53-116 | The meta copy as written and as intended give the same id, posts and terms, and without ACF the same state |
| `Copier.CopyRecord` | class/class-cloner-copier.php:72-92 | The record handed to `wp_insert_post` has the target post as `ID` and no `guid`; the media after the content's uploads only grow and keep existing markers |
| `Copier.FeaturedUpload` | class/class-cloner-copier.php:97-100 | Without a thumbnail URL nothing is uploaded; an attachment becomes the new post's thumbnail; no attachment URL is asked for; existing markers are kept |
| `Copier.CopiedRecord` | class/class-cloner-copier.php:72-95 | The stored copy has the target as `ID`, no `guid`, the rewritten content, and every other source field unchanged |
| `Copier.FeaturedImageKept` | class/class-cloner-copier.php:97-103 | A featured image that uploads to an attachment stays the new post's thumbnail after the meta copy, and the new post's `_thumbnail_id` meta entry is as it was before the copy |
| `Copier.ClonerCopier.constructor` | class/class-cloner-copier.php:43-48 | Every prop is read from the argument array, with missing keys as false |
| `Copier.ClonerCopier.CopyPost` | class/class-cloner-copier.php:53-116 | The returned id, the media and the target site equal `CopyPostResult` of the state before, with the meta copied as written |
| `Copier.ClonerCopier.SetTaxonomies` | class/class-cloner-copier.php:105-110 | Each taxonomy's terms are set in turn; posts and meta are untouched |
| `Copier.ClonerCopier.BuildInsertRecord` | class/class-cloner-copier.php:72-86 | The record loop yields the insert record (see `Copier.InsertRecordFields`) |
| `Copier.ClonerCopier.RewriteKey` | class/class-cloner-copier.php:155-181 | One key's rewrite equals `RewriteField` (see `Copier.RewriteField`) |
| `Copier.ClonerCopier.RewriteBlockData` | class/class-cloner-copier.php:153-183 | The field loop of one block yields `RewriteData`'s fields and media (see `Copier.RewriteField`) |
| `Copier.ClonerCopier.CopyAcfBlocks` | class/class-cloner-copier.php:138-197 | The block loop yields `ContentResult` and its media |
| `Copier.ClonerCopier.CleanupPostMeta` | class/class-cloner-copier.php:205-245 | The nested meta loops, with one attachment URL that is never reset, yield `CleanupMetaAsWritten`; posts and terms are untouched |
| `Copier.ClonerCopier.CopyMetaValues` | class/class-cloner-copier.php:211-244 | The inner loop over one key's values yields `ValuesRun` with the URL carried from value to value |
| `Copier.ClonerCopier.CopyMetaValue` | class/class-cloner-copier.php:212-242 | One value of the meta loop yields `MetaWrite` with the URL carried in, and hands on the URL in force afterwards |
| `Copier.ClonerCopier.ReturnDbVar` | class/class-cloner-copier.php:254-280 | Null for empty arguments; otherwise `get_var` of exactly the query text the loop assembles |
| `Copier.ClonerCopier.UploadImage` | class/class-cloner-copier.php:290-376 | The result and the media afterwards equal `UploadResult` of the media before |
| `Metaboxes.SitePanelsMembers` | class/class-cloner-metaboxes.php:147-166 | For one screen, a panel exists exactly for each related site other than the current one |
| `Metaboxes.PanelsMembers` | class/class-cloner-metaboxes.php:143-168 | A panel is registered exactly for each (enabled post type, related site other than the current one) pair, with id `cty_cloner_id_<site>` |
| `Metaboxes.PanelIdsDistinct` | class/class-cloner-metaboxes.php:158 | Panels for different sites never share an id |
| `Metaboxes.PanelArgs` | class/class-cloner-metaboxes.php:177-198 | A panel shows the target site's entry in the post's relationship, or false |
| `Metaboxes.Dispatch` | class/class-cloner-metaboxes.php:378-409 | Ignore and unknown actions return the panel untouched. Copy and overwrite add the copy; link adds the given target; unlink removes it and clears the target. Every acting panel gets its HTML |
| `Metaboxes.CopyIsOverwrite` | class/class-cloner-metaboxes.php:385-390 | Copy and overwrite have the same effect |
| `Metaboxes.CopyThenPanelShowsCopy` | class/class-cloner-metaboxes.php:378-409 | After a copy, the target site's panel shows the copy |
| `Metaboxes.UnlinkThenPanelEmpty` | class/class-cloner-metaboxes.php:395-399 | After unlinking, the panel shows no target |
| `Metaboxes.SearchRequest` | class/class-cloner-metaboxes.php:343-358 | Null exactly without a target site or search term; otherwise the query for at most 20 post ids of any status, of the type the source post's id has on the target site |
| `Metaboxes.SearchRequestIntended` | class/class-cloner-metaboxes.php:343-358 | As intended: null in the same cases, otherwise the same query with the source post's type read on the source site |
| `Metaboxes.SearchTypeFromTargetSite` | class/class-cloner-metaboxes.php:350-353 | The written and the intended query agree exactly when the id has the same type on both sites |
| `Metaboxes.SearchForPageFindsPosts` | class/class-cloner-metaboxes.php:350-353 | A page searched for from a site where its id is a post: the written query asks for posts, the intended one for pages |
| `Metaboxes.ProcessFrom` | class/class-cloner-metaboxes.php:124-126 | Panels are replaced in place; the count is kept; ignored panels stay as they were, and acting ones keep their sites and get HTML |
| `Metaboxes.IgnoredPanelsChangeNothing` | class/class-cloner-metaboxes.php:400-402 | Panels that ask for nothing leave panels and store unchanged |
| `Metaboxes.Respond` | class/class-cloner-metaboxes.php:108-137 | "Data not provided." exactly when action or data is missing; otherwise success; a search never changes the store |
| `Metaboxes.ClonerMetaboxes.InitialiseMetaBox` | class/class-cloner-metaboxes.php:54-80 | Panels are hooked only with options, related sites, post types and the current site among the related ones |
| `Metaboxes.ClonerMetaboxes.AddClonerMetaBox` | class/class-cloner-metaboxes.php:143-168 | The nested loops register exactly `Panels` (see `Metaboxes.PanelsMembers`) |
| `Metaboxes.ClonerMetaboxes.DoMetaboxAction` | class/class-cloner-metaboxes.php:378-409 | Through a relationship object, the panel and store become `Dispatch` of the state before |
| `Metaboxes.ClonerMetaboxes.ProcessClonerActions` | class/class-cloner-metaboxes.php:108-137 | The response and store equal `Respond` of the state before |
| `Post.Unlinked` | class/class-cloner-post.php:32-44 | Nothing without a `_rid`. Afterwards the post is in no relationship on its site; its row keeps every other site's entry |
| `Post.PostIdAsWritten` | class/class-cloner-post.php:61-66 | As written, a `WP_Post` yields no id |
| `Post.PostId` | class/class-cloner-post.php:61-66 | As intended, a post yields its own id and a Yoast presentation its object id |
| `Post.EditCanonicalUrlAsWritten` | class/class-cloner-post.php:54-102 | As written, only a Yoast presentation gets an id, and then the intended result; every other argument keeps the URL |
| `Post.EditCanonicalUrl` | class/class-cloner-post.php:54-102 | Admin screens and arguments that are not posts keep the URL; a Yoast canonical wins |
| `Post.CanonicalFor` | class/class-cloner-post.php:54-102 | The chain of early returns (admin, no id, Yoast canonical, no or same main site, no relationship, no main-site entry), then the main-site permalink or the URL |
| `Post.WpPostIgnoredAsWritten` | class/class-cloner-post.php:61-71 | As written, 'get_canonical_url' never changes a post's URL |
| `Post.CanonicalChoices` | class/class-cloner-post.php:54-102 | The result is the given URL, the Yoast canonical, or a permalink on the main site |
| `Post.LinkedCopyPointsAtMain` | class/class-cloner-post.php:86-101 | A copy linked from the main site gets the original's permalink as its canonical URL |
| `Post.WpPostCanonicalMissed` | class/class-cloner-post.php:61-66 | For such a copy the code as written keeps the URL, while the intended code returns the permalink |
| `Post.ClonerPost.UnlinkDeleted` | class/class-cloner-post.php:32-44 | The store afterwards equals `Unlinked` of the store before |
| `Autoloader.LastSegment` | clarity-cloner.php:36-37 | The class name after the last backslash, with no backslash in it |
| `Autoloader.FileChar` | clarity-cloner.php:37 | ASCII letters are lower-cased and '_' becomes '-'; nothing else changes |
| `Autoloader.FileName` | clarity-cloner.php:37 | The file name has the class name's length and no '_' |
| `Autoloader.Autoload` | clarity-cloner.php:34-43 | The file is included exactly when it exists, and it is `<dir>/class/class-<name>.php` |
| `Autoloader.SegmentOfPlainName` | clarity-cloner.php:36-37 | A name without a namespace is its own last segment |
| `Autoloader.SegmentAfterSeparator` | clarity-cloner.php:36-37 | Whatever precedes the last backslash does not matter |
| `Autoloader.NamespaceIrrelevant` | clarity-cloner.php:36-38 | A class resolves to the same file in every namespace |
| `Autoloader.FileNameIdempotent` | clarity-cloner.php:37 | Mapping a derived file name again changes nothing |
| `Autoloader.SameFileForSpellings` | clarity-cloner.php:37 | Names differing only in case or in '_' against '-' share a file |
| `Autoloader.RelationshipClassPath` | clarity-cloner.php:34-43 | `cty_cloner\Cloner_Relationship` loads `class/class-cloner-relationship.php` |
| `SaveTrigger.ShouldTrigger` | js/scripts.js:126-129 | Fires only as a save or a preview ends; always as a save that is not an autosave ends, and always as the preview of an autosave ends |
| `SaveTrigger.IdleNeverTriggers` | js/scripts.js:126-129 | Nothing fires unless the editor was saving or previewing before |
| `SaveTrigger.SteadyStateNeverTriggers` | js/scripts.js:116-134 | An unchanged state never fires, so each save triggers once |
| `SaveTrigger.ManualSaveTriggers` | js/scripts.js:127 | A non-autosave that finishes triggers |
| `SaveTrigger.BackgroundAutosaveSilent` | js/scripts.js:125-129 | An autosave that is not for a preview never triggers |
| `SaveTrigger.Triggers` | js/scripts.js:120-134 | One decision per notification, each between the previous observation and the current one |
| `SaveTrigger.SaveCompletesOnce` | js/scripts.js:116-134 | After a manual save ends, idle notifications give one trigger and then none |
| `SaveTrigger.TargetPostOf` | js/scripts.js:95-99 | No field gives false; a single input gives its value; a radio group gives its checked value or false |
| `SaveTrigger.PayloadOf` | js/scripts.js:92-108 | The sites are copied, the action defaults to 'ignore', and the target post is read from the field |
| `SaveTrigger.CollectPayloads` | js/scripts.js:89-110 | Exactly one payload per panel, in document order |
| `SaveTrigger.SaveWatcher.constructor` | js/scripts.js:117-119 | The initial flags are remembered |
| `SaveTrigger.SaveWatcher.Notify` | js/scripts.js:120-134 | The trigger decision on the remembered and the current flags; afterwards the current flags are remembered, whether or not it fired |
| `SaveTrigger.SaveWatcher.OnChange` | js/scripts.js:120-139 | Payloads are sent exactly when a save triggers, one per panel; the flags are remembered |
| `Setup.First` | class/class-cloner-setup.php:257-259 | A slug has a first label exactly when some entry carries it |
| `Setup.AddType` | class/class-cloner-setup.php:257-259 | A slug already present keeps its label; a new one is appended |
| `Setup.AddTypes` | class/class-cloner-setup.php:256-260 | The entries already there stay first, and slugs stay distinct |
| `Setup.AddTypesFirst` | class/class-cloner-setup.php:256-260 | Each slug's label is its first one across the list so far and the site's types, and no slug is lost |
| `Setup.Merged` | class/class-cloner-setup.php:243-262 | Post and page come first with their labels, and slugs are distinct |
| `Setup.SitesToScan` | class/class-cloner-setup.php:239-241 | An empty site list falls back to all sites |
| `Setup.MergedFirst` | class/class-cloner-setup.php:243-262 | The merge is the first-wins reading of the built-ins followed by every site's registrations |
| `Setup.AllCptsLabels` | class/class-cloner-setup.php:238-265 | Post and page always lead, each slug of a scanned site is listed once, and its label is the first scanned site's |
| `Setup.SanitizeAll` | class/class-cloner-setup.php:208 | Every posted value is sanitized, in order |
| `Setup.OptionsRecord` | class/class-cloner-setup.php:207-217 | Missing sites and post types become empty lists; a missing main site becomes '1'; present values are sanitized |
| `Setup.CleanFormSaved` | class/class-cloner-setup.php:207-217 | With clean input, the record is the form with its defaults filled in |
| `Setup.ClonerSetup.constructor` | class/class-cloner.php:36-39 | The relationship table is the base prefix plus "relationships" |
| `Setup.ClonerSetup.ActivatePlugin` | class/class-cloner-setup.php:34-58 | A non-super-admin gets one non-dismissable error notice and no table; otherwise notices stay and the table is requested only for administrators |
| `Setup.ClonerSetup.SetupAdminSettings` | class/class-cloner-setup.php:74-82 | After saving, a dismissable "Settings updated!" notice is set |
| `Setup.ClonerSetup.SaveAdminSettings` | class/class-cloner-setup.php:203-218 | With a valid nonce the options become `OptionsRecord` of the form; otherwise nothing is written |
| `Setup.ClonerSetup.GetAllCpts` | class/class-cloner-setup.php:238-265 | The nested loops yield `AllCpts` (see `Setup.AllCptsLabels`) |

`Attachments.UploadResult` states:

- The query string is cut off first.
- A marked attachment is reused.
- An unmarked URL on the site's own host that already has an attachment
  (`attachment_url_to_postid`) reuses that attachment.
- A rejected download gives false and changes nothing.
- An upload error gives back the URL.
- A fresh upload adds exactly one marked attachment.
- Existing markers never change.
- A featured image is set on the parent to the attachment returned.
- It is rejected only as `Attachments.Rejected` says, the test as written.

`Copier.RewriteField` states:

- A key without `_` is a no-op.
- Only the named field may change.
- It is left alone unless the key's field is a file or image field and the
  value is numeric.
- When it is, the named field becomes the value `upload_image` returns for
  the GUID read from the source site, and the media are those after that
  upload.
- Existing markers are kept.

## Left out

- Rendering is left out: the metabox HTML (`render_meta_box`,
  `render_post_item`), the settings page (`cty_page_cb`), `display_notice`,
  script enqueueing and the panel swap in js/scripts.js:13-29. `Dispatch`
  takes the HTML as a `render` parameter.
- Table creation with `maybe_create_table` and the SQL of the relationship
  table are left out. The table is a map of rows, and `ActivatePlugin`
  returns the table it would create.
- `maybe_serialize` and `wp_json_encode` byte formats are left out.
- The ACF block regex, `json_decode` and the re-encoding of a block are
  environment functions (`Env.blocks`, `Env.splice`). The model proves what
  happens to the decoded data, not the text encoding.
- HTTP downloads, `wp_upload_bits`, attachment metadata and the
  `content-disposition` file name are left out. `Host.fetch` gives the
  content type and status. `Host.uploadFails` says whether the upload
  reports an error.
- `get_post`, `get_post_custom`, `get_field_object`, `wp_insert_post` and
  `get_blog_post` are environment functions.
- `switch_to_blog` is left out. The site each call runs on is an explicit
  argument.
- `get_rid` returns without `restore_current_blog` when a post has no
  `_rid` (class/class-cloner-relationship.php:79-81). The site stack is not
  modelled, so this lapse is not captured.
- `add_target_post` writes the source's `_rid` on the current site, as
  written (class/class-cloner-relationship.php:184). The lemmas assume the
  call is made from the source's own site.
- The search results are left out. `search_posts` is modelled up to the
  `WP_Query` arguments it builds (`Metaboxes.SearchRequest`), not the
  rendered list.
- Nonce checks (`verify_nonce`) are left out. The `wp_die` that ends every
  AJAX response is left out too.
- `save_admin_settings`'s redirect and `exit` are left out.
- Translation with `__()` is left out: labels and messages are the English
  literals.
- A negative `main_site` option reads as 0. Both leave the canonical URL
  unchanged, since no site has a negative id.
- Post and site ids are natural numbers. String ids posted by the editor
  script are kept as strings in `SaveTrigger`, and the endpoint receives them
  already decoded as `Metabox` values.
- `is_numeric` follows PHP 8 on decimal strings. Numeric comparison
  overflow, such as "1e-400" > 0, is not modelled.
- `strtolower` is ASCII-only, as in PHP 8.2 and later.
- `Copier.RewriteData`: it does not state the upload value stored per field.
  That value is stated by `RewriteField`, which `RewriteData` applies key by
  key.
- `Copier.FeaturedImageKept`: the featured image is modelled as
  `Media.thumbnails`, apart from the post meta entry `_thumbnail_id` where
  WordPress keeps it; the lemma also proves that the meta copy leaves that
  entry alone.
- `Copier.CopyPostResult`: `wp_insert_post` failing is not modelled. It
  returns 0 or an error, and the code then writes meta, terms and the
  featured image against that id. `Env.insertPost` always gives an id.
- `Copier.CopyPostResult`: the id `wp_insert_post` hands out and the ids
  `wp_insert_attachment` hands out (`Media.nextId`) come from independent
  sources. In WordPress both draw on one posts table, so an attachment id
  can never equal a new post's id; the model does not relate them.
- `Metaboxes.CopyIsOverwrite`: it states only the store and the target post,
  not the rendered HTML.

## Findings

| source | as written | input that shows it | evidently intended | confidence | as-written member | corrected member |
|---|---|---|---|---|---|---|
| class/class-cloner-copier.php:227-237 | `$attachment_url` is set when a meta value names an attachment and is never reset. Every later positive number, under any key, is replaced by an upload of that attachment. | Meta "hero" = "12", an image field naming an attachment, followed by "views" = "5". As written, "views" is overwritten with the hero image (`Copier.HeroCountCase`, `Copier.CarriedUrlRewritesCount`). | Each value is replaced only by its own attachment. "views" keeps "5". | not executed | `Copier.CleanupMetaAsWritten` (`Copier.ClonerCopier.CleanupPostMeta`, `Copier.AsWrittenViews`) | `Copier.CleanupMeta` (`Copier.IntendedViews`, `Copier.MetaCopiedUnchanged`, `Copier.CopyPostCarryOnlyMeta`) |
| class/class-cloner-copier.php:323 | `strpos($type, 'exe') === true` compares an offset or false with true, so it is never true. Executables are not rejected. | Any content type containing "exe", such as "application/x-dosexec" (`Attachments.ExeTestNeverFires`). | Reject every content type in which "exe" occurs. | not executed | `Attachments.ExeRejectedAsWritten` (`Attachments.Rejected`, `Attachments.ExecutableUploadedAsWritten`) | `Attachments.ExeRejected` (`Attachments.ExeRejectedMeans`, `Attachments.RejectedIntended`) |
| class/class-cloner-post.php:62 | Inside `namespace cty_cloner`, `instanceof WP_Post` names `cty_cloner\WP_Post`, which does not exist. A post passed by 'get_canonical_url' yields no id. | A post on a site other than the main one, linked to a main-site original that has a permalink (`Post.WpPostCanonicalMissed`). | Use the post's own id, so the copy's canonical URL becomes the original's permalink (`Post.LinkedCopyPointsAtMain`). | not executed | `Post.EditCanonicalUrlAsWritten` | `Post.EditCanonicalUrl` |
| class/class-cloner-metaboxes.php:350-353 | `search_posts` switches to the target site before `get_post_type($data['sourcePost'])`, so it reads the type of whatever post has that id on the target site. | A page with id 7 on site 1, searched for from site 2 where id 7 is a post: the query asks for posts (`Metaboxes.SearchForPageFindsPosts`). | Read the source post's type on the source site, which the script sends along as `sourceBlog`. | not executed | `Metaboxes.SearchRequest` (`Metaboxes.SearchTypeFromTargetSite`) | `Metaboxes.SearchRequestIntended` |
