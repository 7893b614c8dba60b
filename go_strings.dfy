/** The pieces of Go's standard library that the gateway leans on:
    `strings.Split` and `strings.Join` with a one-character separator, and
    `filepath.Ext` on slash-separated paths. Go strings are byte strings;
    here a character stands for a byte. */
module GoStrings {

  /** `strings.Join(parts, string(sep))`. */
  function Join(parts: seq<string>, sep: char): string
  {
    if |parts| == 0 then ""
    else if |parts| == 1 then parts[0]
    else parts[0] + [sep] + Join(parts[1..], sep)
  }

  /** `strings.Split(s, string(sep))`: cuts `s` at every occurrence of `sep`;
      the empty string splits into one empty part, and adjacent separators
      give empty parts. */
  function Split(s: string, sep: char): (parts: seq<string>)
    ensures |parts| >= 1
    ensures forall i :: 0 <= i < |parts| ==> sep !in parts[i]
  {
    if |s| == 0 then [""]
    else
      var rest := Split(s[1..], sep);
      if s[0] == sep then [""] + rest
      else [[s[0]] + rest[0]] + rest[1..]
  }

  /** Joining the parts of a split gives back the original string. */
  lemma {:induction false} JoinSplit(s: string, sep: char)
    ensures Join(Split(s, sep), sep) == s
  {
    if |s| > 0 {
      var rest := Split(s[1..], sep);
      JoinSplit(s[1..], sep);
      if s[0] == sep {
        assert Split(s, sep) == [""] + rest;
        assert ([""] + rest)[1..] == rest;
        assert s == [sep] + s[1..];
      } else {
        assert Split(s, sep) == [[s[0]] + rest[0]] + rest[1..];
        JoinConsChar(s[0], rest, sep);
        assert s == [s[0]] + s[1..];
      }
    }
  }

  /** Putting a character in front of the first part puts it in front of the
      joined string. */
  lemma {:induction false} JoinConsChar(c: char, parts: seq<string>, sep: char)
    requires |parts| >= 1
    ensures Join([[c] + parts[0]] + parts[1..], sep) == [c] + Join(parts, sep)
  {
    var ps := [[c] + parts[0]] + parts[1..];
    assert ps[1..] == parts[1..];
  }

  /** Splitting parts that contain no separator after joining them gives the
      parts back: the other half of the round trip. */
  lemma {:induction false} SplitJoin(parts: seq<string>, sep: char)
    requires |parts| >= 1
    requires forall i :: 0 <= i < |parts| ==> sep !in parts[i]
    ensures Split(Join(parts, sep), sep) == parts
    decreases |parts|, |parts[0]|
  {
    if |parts[0]| == 0 {
      if |parts| > 1 {
        SplitJoin(parts[1..], sep);
        assert Join(parts, sep) == [sep] + Join(parts[1..], sep);
        assert Join(parts, sep)[1..] == Join(parts[1..], sep);
        assert parts == [""] + parts[1..];
      }
    } else {
      var c := parts[0][0];
      var tail := [parts[0][1..]] + parts[1..];
      assert tail[1..] == parts[1..];
      SplitJoin(tail, sep);
      assert [c] + tail[0] == parts[0];
      assert [[c] + tail[0]] + tail[1..] == parts;
      JoinConsChar(c, tail, sep);
      var j := Join(parts, sep);
      assert j == [c] + Join(tail, sep);
      assert j[1..] == Join(tail, sep);
      assert j[0] == c && c != sep;
    }
  }

  /** `filepath.Ext(path)`: the suffix starting at the final dot of the last
      path element, or "" when that element has no dot. */
  function Ext(path: string): string
  {
    if |path| == 0 then ""
    else
      var last := path[|path| - 1];
      if last == '/' then ""
      else if last == '.' then "."
      else
        var e := Ext(path[..|path| - 1]);
        if e == "" then "" else e + [last]
  }

  /** The extension is a suffix of the path that starts with its only dot
      and holds no slash. */
  lemma {:induction false} ExtShape(path: string)
    ensures var e := Ext(path);
      && (e != [] ==> e[0] == '.' && |e| <= |path| && path[|path| - |e|..] == e)
      && (e != [] ==> '/' !in e && '.' !in e[1..])
    decreases |path|
  {
    if |path| > 0 {
      var last := path[|path| - 1];
      var init := path[..|path| - 1];
      if last == '.' {
        assert path[|path| - 1..] == ".";
      } else if last != '/' {
        ExtShape(init);
        var e := Ext(init);
        if e != "" {
          assert path == init + [last];
          SuffixAppend(init, last, |e|);
          assert (e + [last])[1..] == e[1..] + [last];
        }
      }
    }
  }

  lemma SuffixAppend(init: string, x: char, n: nat)
    requires n <= |init|
    ensures (init + [x])[|init| - n..] == init[|init| - n..] + [x]
  {
  }

  /** There is no extension exactly when the last path element has no dot. */
  lemma {:induction false} ExtNone(path: string)
    ensures Ext(path) == [] <==> forall k :: 0 <= k < |path| && '/' !in path[k..] ==> path[k] != '.'
    decreases |path|
  {
    if |path| > 0 {
      var last := path[|path| - 1];
      if last == '/' {
        SlashEndsElement(path);
      } else if last != '.' {
        ExtNone(path[..|path| - 1]);
        SlashesBefore(path);
      }
    }
  }

  /** A path ending in a slash has an empty last element. */
  lemma SlashEndsElement(path: string)
    requires |path| > 0 && path[|path| - 1] == '/'
    ensures forall k :: 0 <= k < |path| ==> '/' in path[k..]
  {
    forall k | 0 <= k < |path|
      ensures '/' in path[k..]
    {
      assert path[k..][|path| - 1 - k] == '/';
    }
  }

  /** Dropping a last character that is not a slash keeps which suffixes
      hold a slash. */
  lemma SlashesBefore(path: string)
    requires |path| > 0 && path[|path| - 1] != '/'
    ensures forall k :: 0 <= k < |path| - 1 ==> ('/' in path[k..] <==> '/' in path[..|path| - 1][k..])
  {
    forall k | 0 <= k < |path| - 1
      ensures '/' in path[k..] <==> '/' in path[..|path| - 1][k..]
    {
      assert path[k..] == path[..|path| - 1][k..] + [path[|path| - 1]];
    }
  }

  /** The extension of a file name without its leading dot, as
      `ext = filepath.Ext(name); if ext != "" { ext = ext[1:] }` computes it. */
  function BareExt(name: string): (e: string)
    ensures '.' !in e && '/' !in e
    ensures e != [] ==> |e| < |name| && name[|name| - |e| - 1..] == ['.'] + e
  {
    ExtShape(name);
    var ext := Ext(name);
    if ext != "" then ext[1..] else ext
  }
}
