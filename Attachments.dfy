/** `Cloner_Copier::upload_image` and the attachments of the site it runs on:
    an image URL is reused when an attachment already carries it as its
    `_cty_original_file_src` marker, and downloaded, uploaded and marked
    otherwise. Download, upload and URL lookups are given by the host. */
module Attachments {
  import opened Common
  import opened Php

  /** The attachments of the site `upload_image` runs on: the original-URL
      marker of each attachment that has one, the next post id the site hands
      out, and each post's featured image. */
  datatype Media = Media(markers: map<Id, string>, nextId: Id, thumbnails: map<Id, Id>)

  /** Post ids are positive and handed out in increasing order. */
  ghost predicate MediaValid(m: Media) {
    && m.nextId >= 1
    && forall id :: id in m.markers ==> 1 <= id < m.nextId
  }

  /** What `wp_remote_request` answered: its content-type header and status code. */
  datatype Fetched = Fetched(contentType: string, status: int)

  /** The host calls `upload_image` makes on the target site. */
  datatype Host = Host(
    homeUrl: string,              // home_url()
    urlToPostId: string -> Id,    // attachment_url_to_postid
    fetch: string -> Fetched,     // wp_remote_request and its headers
    uploadFails: string -> bool,  // wp_upload_bits reported an error for this URL
    attachmentUrl: Id -> string)  // wp_get_attachment_url

  /** What `upload_image` returns: false, the original URL (upload error), an
      attachment id, or (with `$return_url`) the attachment's URL. */
  datatype Upload = Failed | OriginalUrl(url: string) | AttachmentId(id: Id) | AttachmentUrl(url: string)

  /** The PHP value an upload result stands for when it is stored. */
  function UploadValue(u: Upload): Value {
    match u
    case Failed => Bool(false)
    case OriginalUrl(url) => Text(url)
    case AttachmentId(id) => Num(id)
    case AttachmentUrl(url) => Text(url)
  }

  /** The most recent attachment (highest id below `below`) marked with `url`:
      what `get_posts` returns first when asked for the marker value. */
  function LatestMarked(markers: map<Id, string>, url: string, below: nat): (r: Option<Id>)
    ensures r.Some? ==> r.value < below && r.value in markers && markers[r.value] == url
    ensures r.Some? ==> forall j :: r.value < j < below && j in markers ==> markers[j] != url
    ensures r.None? ==> forall j :: 0 <= j < below && j in markers ==> markers[j] != url
  {
    if below == 0 then None
    else if below - 1 in markers && markers[below - 1] == url then Some(below - 1)
    else LatestMarked(markers, url, below - 1)
  }

  /** `home_url()` with every "http://", "https://" and "www." removed. */
  function SiteHost(home: string): (r: string)
    ensures |r| <= |home|
  {
    RemoveAll(RemoveAll(RemoveAll(home, "http://"), "https://"), "www.")
  }

  /** A home URL without a scheme or "www." is its own host. */
  lemma SiteHostOfBareHost(home: string)
    requires !Contains(home, "http://") && !Contains(home, "https://") && !Contains(home, "www.")
    ensures SiteHost(home) == home
  {
    RemoveAllAbsent(home, "http://");
    RemoveAllAbsent(home, "https://");
    RemoveAllAbsent(home, "www.");
  }

  /** A leading "http://" does not change the host. */
  lemma SiteHostIgnoresHttp(h: string)
    ensures SiteHost("http://" + h) == SiteHost(h)
  {
    RemoveAllLead("http://", h);
  }

  /** A leading "https://" does not change the host. */
  lemma SiteHostIgnoresHttps(h: string)
    ensures SiteHost("https://" + h) == SiteHost(h)
  {
    HttpsHoldsNoHttp(h);
    RemoveAllLead("https://", RemoveAll(h, "http://"));
  }

  /** Removing "http://" keeps a leading "https://": its fifth character is 's'. */
  lemma HttpsHoldsNoHttp(h: string)
    ensures RemoveAll("https://" + h, "http://") == "https://" + RemoveAll(h, "http://")
  {
    var t := "https://" + h;
    var rest := RemoveAll(h, "http://");
    assert RemoveAll(t, "http://") == [t[0]] + RemoveAll(t[1..], "http://") by {
      assert t[..7] != "http://" by {
        assert t[4] == 's';
      }
    }
    assert RemoveAll("ttps://" + h, "http://") == "ttps://" + rest by {
      RemoveAllSkip("ttps://", h, "http://");
    }
    assert t[0] == 'h' && t[1..] == "ttps://" + h;
    assert ['h'] + ("ttps://" + rest) == "https://" + rest;
  }

  /** A leading "www." does not change the host. */
  lemma SiteHostIgnoresWww(h: string)
    ensures SiteHost("www." + h) == SiteHost(h)
  {
    var http := RemoveAll(h, "http://");
    RemoveAllSkip("www.", h, "http://");
    RemoveAllSkip("www.", http, "https://");
    RemoveAllLead("www.", RemoveAll(http, "https://"));
  }



  /** The executable test as written: `strpos($type, 'exe') === true`.
      `strpos` answers an offset or false, never true, so it rejects nothing. */
  predicate ExeRejectedAsWritten(contentType: string): (r: bool)
    ensures !r
  {
    StrPos(contentType, "exe") == Bool(true)
  }

  /** The executable test as intended: `strpos($type, 'exe') !== false`. */
  predicate ExeRejected(contentType: string): (r: bool)
    ensures r <==> Contains(contentType, "exe")
  {
    StrPos(contentType, "exe") != Bool(false)
  }

  /** The intended test rejects exactly the content types in which "exe" occurs. */
  lemma ExeRejectedMeans(contentType: string)
    ensures ExeRejected(contentType) <==> exists i :: 0 <= i <= |contentType| && HasPrefix(contentType[i..], "exe")
  {
    ContainsAt(contentType, "exe");
  }

  /** The difference: for every content type with "exe" in it, such as the
      "application/x-dosexec" Windows executables are served with, `strpos`
      finds the offset, which the intended test rejects and the test as
      written lets through. */
  lemma ExeTestNeverFires(before: string, after: string)
    ensures StrPos(before + "exe" + after, "exe").Num?
    ensures ExeRejected(before + "exe" + after)
    ensures !ExeRejectedAsWritten(before + "exe" + after)
  {
    ContainsPlaced(before, "exe", after);
  }

  /** The attachment id `upload_image` finds before deciding to download: the
      marked attachment, or, for a URL on this site's own domain, the
      attachment behind the URL; 0 when there is none. */
  function ExistingAttachment(m: Media, url: string, h: Host): (r: Id)
    // an attachment already marked with the URL is found: the latest such one
    ensures forall j :: j in m.markers && j < m.nextId && m.markers[j] == url ==> j <= r && r in m.markers && m.markers[r] == url
    // an unmarked URL off this site is not looked up
    ensures LatestMarked(m.markers, url, m.nextId).None? && !Contains(url, SiteHost(h.homeUrl)) ==> r == 0
    // an unmarked URL on this site's own host is the attachment behind it, if any
    ensures LatestMarked(m.markers, url, m.nextId).None? && Contains(url, SiteHost(h.homeUrl)) ==> r == h.urlToPostId(url)
  {
    var found := LatestMarked(m.markers, url, m.nextId);
    if found.Some? then found.value
    else if Contains(url, SiteHost(h.homeUrl)) then h.urlToPostId(url)
    else 0
  }

  /** The end of `upload_image` once an attachment id is settled: set it as the
      featured image if asked, and return its id or its URL. */
  function Finish(m: Media, id: Id, parent: Id, featured: bool, returnUrl: bool, h: Host): (r: (Upload, Media))
    // nothing is stored, and only the parent's featured image may change
    ensures r.1.markers == m.markers && r.1.nextId == m.nextId
    ensures featured ==> r.1.thumbnails == m.thumbnails[parent := id]
    ensures !featured ==> r.1 == m
    ensures r.0.AttachmentId? <==> !returnUrl
  {
    (if returnUrl then AttachmentUrl(h.attachmentUrl(id)) else AttachmentId(id),
     if featured then m.(thumbnails := m.thumbnails[parent := id]) else m)
  }

  /** The rejection test on a download as written: no content type, the
      executable test, or a 404. */
  function Rejected(f: Fetched): (r: bool)
    // the executable test adds nothing: only a missing type or a 404 rejects
    ensures r <==> !TruthyString(f.contentType) || f.status == 404
  {
    !TruthyString(f.contentType) || ExeRejectedAsWritten(f.contentType) || f.status == 404
  }

  /** The rejection test as intended: executables are rejected as well. */
  function RejectedIntended(f: Fetched): (r: bool)
    ensures Rejected(f) ==> r
    ensures Contains(f.contentType, "exe") ==> r
    ensures r ==> Rejected(f) || Contains(f.contentType, "exe")
  {
    !TruthyString(f.contentType) || ExeRejected(f.contentType) || f.status == 404
  }

  /** Every marker of `m` is still there, unchanged, in `m'`. */
  ghost predicate MarkersKept(m: Media, m': Media) {
    forall id :: id in m.markers ==> id in m'.markers && m'.markers[id] == m.markers[id]
  }

  /** `upload_image($image, $parent_id, $is_featured, $return_url)` on media `m`. */
  function UploadResult(m: Media, image: string, parent: Id, featured: bool, returnUrl: bool, h: Host): (r: (Upload, Media))
    // the query string is cut off before anything is looked up
    ensures var url := StrTok(image, '?');
      // an attachment already marked with the URL is reused, nothing is downloaded
      && (LatestMarked(m.markers, url, m.nextId).Some? && LatestMarked(m.markers, url, m.nextId).value != 0 ==>
            r == Finish(m, LatestMarked(m.markers, url, m.nextId).value, parent, featured, returnUrl, h))
      // an unmarked URL on this site's own host that already has an attachment reuses it
      && (LatestMarked(m.markers, url, m.nextId).None? && Contains(url, SiteHost(h.homeUrl)) && h.urlToPostId(url) != 0 ==>
            r == Finish(m, h.urlToPostId(url), parent, featured, returnUrl, h))
      // a rejected download gives false and changes nothing
      && (ExistingAttachment(m, url, h) == 0 && Rejected(h.fetch(url)) ==> r == (Failed, m))
      // an upload error gives back the URL and changes nothing
      && (ExistingAttachment(m, url, h) == 0 && !Rejected(h.fetch(url)) && h.uploadFails(url) ==>
            r == (OriginalUrl(url), m))
      // a fresh upload creates one attachment that records the URL as its marker
      && (ExistingAttachment(m, url, h) == 0 && !Rejected(h.fetch(url)) && !h.uploadFails(url) ==>
            && r.1.markers == m.markers[m.nextId := url]
            && r.1.nextId == m.nextId + 1
            && r.0 == (if returnUrl then AttachmentUrl(h.attachmentUrl(m.nextId)) else AttachmentId(m.nextId)))
    // only a fresh upload adds a marker; an existing marker is never changed
    ensures r.1.nextId >= m.nextId
    ensures MediaValid(m) ==> MarkersKept(m, r.1)
    ensures !featured ==> r.1.thumbnails == m.thumbnails
    ensures MediaValid(m) ==> MediaValid(r.1)
    // without `$return_url` the result is false, the URL or an id, never a URL of an attachment
    ensures !returnUrl ==> !r.0.AttachmentUrl?
    ensures r.0.OriginalUrl? ==> r.0.url == StrTok(image, '?')
    // false and the original URL leave the media as they were
    ensures r.0.Failed? || r.0.OriginalUrl? ==> r.1 == m
    // a featured image is set on the parent to the attachment returned
    ensures featured && r.0.AttachmentId? ==> r.1.thumbnails == m.thumbnails[parent := r.0.id]
  {
    var url := StrTok(image, '?');
    var existing := ExistingAttachment(m, url, h);
    if existing != 0 then Finish(m, existing, parent, featured, returnUrl, h)
    else
      var f := h.fetch(url);
      if Rejected(f) then (Failed, m)
      else if h.uploadFails(url) then (OriginalUrl(url), m)
      else
        var id := m.nextId;
        Finish(m.(markers := m.markers[id := url], nextId := id + 1), id, parent, featured, returnUrl, h)
  }

  /** As written, an executable that is not yet an attachment is downloaded,
      uploaded and marked like any other file, though the intended test
      rejects it. */
  lemma ExecutableUploadedAsWritten(m: Media, image: string, parent: Id, h: Host, before: string, after: string)
    requires ExistingAttachment(m, StrTok(image, '?'), h) == 0
    requires h.fetch(StrTok(image, '?')) == Fetched(before + "exe" + after, 200)
    requires !h.uploadFails(StrTok(image, '?'))
    ensures var url := StrTok(image, '?');
      UploadResult(m, image, parent, false, false, h)
      == (AttachmentId(m.nextId), m.(markers := m.markers[m.nextId := url], nextId := m.nextId + 1))
    ensures RejectedIntended(h.fetch(StrTok(image, '?')))
  {
    var t := before + "exe" + after;
    assert |t| >= 3;
    assert TruthyString(t);
    ContainsPlaced(before, "exe", after);
  }

  /** Without `$return_url`, the only text `upload_image` stores is the image's
      own URL (after an upload error); otherwise false or an attachment id. */
  lemma UploadStoresNoOtherText(m: Media, image: string, parent: Id, featured: bool, h: Host, t: string)
    requires t != StrTok(image, '?')
    ensures UploadValue(UploadResult(m, image, parent, featured, false, h).0) != Text(t)
  {
  }

  /** A freshly marked attachment is the newest one carrying its URL. */
  lemma FreshIsLatest(m: Media, url: string)
    ensures LatestMarked(m.markers[m.nextId := url], url, m.nextId + 1) == Some(m.nextId)
  {
  }

  /** The lookup before a download reads only the markers and the next id. */
  lemma ExistingReadsMarkers(m: Media, m': Media, url: string, h: Host)
    requires m'.markers == m.markers && m'.nextId == m.nextId
    ensures ExistingAttachment(m', url, h) == ExistingAttachment(m, url, h)
  {
  }

  /** Finishing with the same attachment again changes nothing more. */
  lemma FinishTwice(m: Media, id: Id, parent: Id, featured: bool, h: Host)
    ensures var once := Finish(m, id, parent, featured, false, h);
      Finish(once.1, id, parent, featured, false, h) == once
  {
    if featured {
      var t := m.thumbnails[parent := id];
      assert t[parent := id] == t;
    }
  }

  /** Dedup: once an upload has produced an attachment id, uploading the same
      image again yields that same id and creates nothing new. */
  lemma UploadAgainSameAttachment(m: Media, image: string, parent: Id, featured: bool, h: Host)
    requires MediaValid(m)
    requires UploadResult(m, image, parent, featured, false, h).0.AttachmentId?
    ensures var first := UploadResult(m, image, parent, featured, false, h);
      UploadResult(first.1, image, parent, featured, false, h) == first
  {
    var url := StrTok(image, '?');
    var first := UploadResult(m, image, parent, featured, false, h);
    var existing := ExistingAttachment(m, url, h);
    if existing == 0 {
      var m1 := m.(markers := m.markers[m.nextId := url], nextId := m.nextId + 1);
      assert first == Finish(m1, m.nextId, parent, featured, false, h);
      FreshIsLatest(m, url);
      assert ExistingAttachment(m1, url, h) == m.nextId;
      ExistingReadsMarkers(m1, first.1, url, h);
      FinishTwice(m1, m.nextId, parent, featured, h);
    } else {
      assert first == Finish(m, existing, parent, featured, false, h);
      ExistingReadsMarkers(m, first.1, url, h);
      FinishTwice(m, existing, parent, featured, h);
    }
  }

  /** The target site's attachments, which `upload_image` adds to. */
  class MediaLibrary {
    var markers: map<Id, string>
    var nextId: Id
    var thumbnails: map<Id, Id>

    function Value(): Media
      reads this
    {
      Media(markers, nextId, thumbnails)
    }

    constructor (m: Media)
      ensures Value() == m
    {
      markers, nextId, thumbnails := m.markers, m.nextId, m.thumbnails;
    }
  }
}
