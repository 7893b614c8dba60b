/** What `downloadAndStoreMedia` and `getMessageBody` promise: a media file
    is downloaded only while it is missing from the store, a stored file is
    never replaced, the stored extension falls back to the file name's, and
    once stored the file's URL is what the message body shows. */
module MediaProperties {
  import opened GoStrings
  import opened Whapp
  import opened WhappMessages

  /** The store only grows: a download happens exactly for media that is
      missing, a file is added only when both the download and the store
      succeed, and no stored file is replaced. */
  lemma StoreGrows(m: Media, msg: Message, download: Result<Bytes>, storeError: Option<string>, c: Collaborators)
    ensures var (m1, err) := DownloadAndStoreMedia(m, msg, download, storeError, c);
      var missing := msg.isMms && msg.mediaHash !in m.blobs;
      && m1.downloads == m.downloads + (if missing then 1 else 0)
      && m1.blobs.Keys == m.blobs.Keys + (if missing && err.None? then {msg.mediaHash} else {})
      && (forall k :: k in m.blobs ==> m1.blobs[k] == m.blobs[k])
      && (err.None? <==> !missing || (download.Ok? && storeError.None?))
      && (err.Some? ==> err == (if download.Err? then Some(download.error) else storeError))
      && (msg.isMms && err.None? ==> msg.mediaHash in m1.blobs)
  {
    if msg.isMms && msg.mediaHash !in m.blobs && download.Ok? && storeError.None? {
      var blob := Blob(StoredExtension(msg, download.value, c), download.value);
      assert m.blobs[msg.mediaHash := blob].Keys == m.blobs.Keys + {msg.mediaHash};
    }
  }

  /** Once a message's media is stored, handling it (or any message with the
      same hash) again downloads nothing, whatever the service would answer. */
  lemma DownloadedOnce(m: Media, msg: Message, download: Result<Bytes>, storeError: Option<string>,
                       again: Message, download2: Result<Bytes>, storeError2: Option<string>, c: Collaborators)
    requires DownloadAndStoreMedia(m, msg, download, storeError, c).1.None? && msg.isMms
    requires again.mediaHash == msg.mediaHash
    ensures var m1 := DownloadAndStoreMedia(m, msg, download, storeError, c).0;
      DownloadAndStoreMedia(m1, again, download2, storeError2, c) == (m1, None)
  {
    StoreGrows(m, msg, download, storeError, c);
  }

  /** The extension a file is stored under: the detected one when there is
      one, otherwise the file name's extension without its dot, which has no
      dot or slash and is what the name ends with. */
  lemma StoredExtensionFallback(msg: Message, bytes: Bytes, c: Collaborators)
    ensures var ext := StoredExtension(msg, bytes, c);
      && (c.extensionOf(msg.mimeType, bytes) != "" ==> ext == c.extensionOf(msg.mimeType, bytes))
      && (c.extensionOf(msg.mimeType, bytes) == "" ==>
            && '.' !in ext && '/' !in ext
            && (ext != "" ==> EndsWith(msg.mediaFilename, "." + ext))
            && (ext == "" <==> |Ext(msg.mediaFilename)| <= 1))
  {
    var ext := StoredExtension(msg, bytes, c);
    if c.extensionOf(msg.mimeType, bytes) == "" && ext != "" {
      var name := msg.mediaFilename;
      assert name[|name| - |ext| - 1..] == ['.'] + ext;
      assert "." + ext == ['.'] + ext;
    }
  }

  predicate EndsWith(s: string, suffix: string)
  {
    |suffix| <= |s| && s[|s| - |suffix|..] == suffix
  }

  /** A location is shown as a map link whatever else the message carries;
      otherwise media is shown by its URL once stored and by the placeholder
      before, followed by the formatted caption if there is one; plain text
      is formatted. */
  lemma BodyPrecedence(msg: Message, ps: seq<Participant>, me: Me, blobs: map<string, Blob>, c: Collaborators)
    ensures var body := MessageBody(msg, ps, me, blobs, c);
      && (msg.location.Some? ==> body == c.mapLink(msg.location.value))
      && (msg.location.None? && msg.isMms && msg.mediaHash in blobs ==>
            StartsWith(body, c.fileUrl(msg.mediaHash, blobs[msg.mediaHash])))
      && (msg.location.None? && msg.isMms && msg.mediaHash !in blobs ==> StartsWith(body, FilePlaceholder))
      && (msg.location.None? && msg.isMms && msg.caption == "" ==> body == MediaRef(msg, blobs, c))
      && (msg.location.None? && msg.isMms && msg.caption != "" ==>
            body == MediaRef(msg, blobs, c) + " " + c.formatCaption(msg, ps, me.pushname))
      && (msg.location.None? && !msg.isMms ==> body == c.formatBody(msg, ps, me.pushname))
  {
    if msg.location.None? && msg.isMms {
      var ref := MediaRef(msg, blobs, c);
      var rest := if msg.caption != "" then " " + c.formatCaption(msg, ps, me.pushname) else "";
      assert (ref + rest)[..|ref|] == ref;
    }
  }

  predicate StartsWith(s: string, prefix: string)
  {
    |prefix| <= |s| && s[..|prefix|] == prefix
  }

  /** After a successful fetch the body of an MMS message without a location
      shows the stored file's URL, never the placeholder. */
  lemma StoredMediaShown(m: Media, msg: Message, download: Result<Bytes>, storeError: Option<string>,
                         ps: seq<Participant>, me: Me, c: Collaborators)
    requires msg.isMms && msg.location.None?
    requires DownloadAndStoreMedia(m, msg, download, storeError, c).1.None?
    ensures var blobs := DownloadAndStoreMedia(m, msg, download, storeError, c).0.blobs;
      && msg.mediaHash in blobs
      && StartsWith(MessageBody(msg, ps, me, blobs, c), c.fileUrl(msg.mediaHash, blobs[msg.mediaHash]))
  {
    var blobs := DownloadAndStoreMedia(m, msg, download, storeError, c).0.blobs;
    StoreGrows(m, msg, download, storeError, c);
    BodyPrecedence(msg, ps, me, blobs, c);
  }
}
