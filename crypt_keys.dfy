/** The media-decryption key table of whapp/constants.go: each media type
    maps to the hex text of the key label it is decrypted with, and any
    other type uses the document key. */
module CryptKeys {

  const ImageKey := "576861747341707020496d616765204b657973"
  const VideoKey := "576861747341707020566964656f204b657973"
  const AudioKey := "576861747341707020417564696f204b657973"
  const DocumentKey := "576861747341707020446f63756d656e74204b657973"

  /** `cryptKeys`. */
  const Table: map<string, string> := map[
    "image" := ImageKey,
    "sticker" := ImageKey,
    "video" := VideoKey,
    "audio" := AudioKey,
    "ptt" := AudioKey,
    "document" := DocumentKey
  ]

  predicate IsLowerHexDigit(ch: char)
  {
    '0' <= ch <= '9' || 'a' <= ch <= 'f'
  }

  /** An even number of lower-case hex digits: the text of whole bytes. */
  predicate IsHexBytes(s: string)
  {
    |s| % 2 == 0 && forall i :: 0 <= i < |s| ==> IsLowerHexDigit(s[i])
  }

  /** `getCryptKey`: the table entry for `typ`, or the document key. */
  function CryptKey(typ: string): (key: string)
    ensures key in Table.Values
    ensures IsHexBytes(key) && key != ""
    ensures typ in Table ==> key == Table[typ]
    ensures typ !in Table ==> key == DocumentKey
  {
    TableIsHexBytes();
    assert Table["document"] == DocumentKey;
    if typ in Table then Table[typ] else Table["document"]
  }

  /** Every key in the table is the hex text of whole bytes. */
  lemma TableIsHexBytes()
    ensures forall k :: k in Table ==> IsHexBytes(Table[k]) && Table[k] != ""
  {
    ImageKeyIsHex();
    VideoKeyIsHex();
    AudioKeyIsHex();
    DocumentKeyIsHex();
  }

  lemma ImageKeyIsHex() ensures IsHexBytes(ImageKey) {}
  lemma VideoKeyIsHex() ensures IsHexBytes(VideoKey) {}
  lemma AudioKeyIsHex() ensures IsHexBytes(AudioKey) {}
  lemma DocumentKeyIsHex() ensures IsHexBytes(DocumentKey) {}

  /** Images and stickers share a key, as do audio and voice notes; the four
      key classes are distinct. */
  lemma SharedKeys()
    ensures CryptKey("image") == CryptKey("sticker") == ImageKey
    ensures CryptKey("audio") == CryptKey("ptt") == AudioKey
    ensures CryptKey("video") == VideoKey
    ensures CryptKey("document") == DocumentKey
    ensures ImageKey != VideoKey && ImageKey != AudioKey && VideoKey != AudioKey
    ensures DocumentKey != ImageKey && DocumentKey != VideoKey && DocumentKey != AudioKey
  {
    assert ImageKey[18] != VideoKey[18];
    assert ImageKey[19] != AudioKey[19];
    assert VideoKey[18] != AudioKey[18];
    assert |DocumentKey| != |ImageKey|;
  }

  /** A type outside the table gets the document key. */
  lemma UnknownTypeIsDocument(typ: string)
    requires typ != "image" && typ != "sticker" && typ != "video"
    requires typ != "audio" && typ != "ptt" && typ != "document"
    ensures CryptKey(typ) == DocumentKey
  {
    assert typ !in Table;
  }
}
