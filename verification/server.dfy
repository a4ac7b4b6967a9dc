/**
 `DirectoryRequestHandler.translate_path` of `mudi/server.py`: the mapping
 from a request path to a file under the served directory.

 Percent-decoding (`urllib.parse.unquote`) and `posixpath.normpath` are
 parameters. The served directory is a relative path of parts, so joining a
 part to it appends the part.
 */
module Server {
  import opened Base
  import opened Paths

  /** `s.split("/")`: the pieces between separators, empty ones included;
      there is always at least one. */
  function Split(s: string): (r: seq<string>)
    ensures |r| > 0
    ensures forall i :: 0 <= i < |r| ==> '/' !in r[i]
  {
    if |s| == 0 then [""]
    else
      var rest := Split(s[1..]);
      if s[0] == '/' then [""] + rest
      else [[s[0]] + rest[0]] + rest[1..]
  }

  /** `"/".join(pieces)`. */
  function Join(pieces: seq<string>): string
    requires |pieces| > 0
  {
    if |pieces| == 1 then pieces[0] else pieces[0] + "/" + Join(pieces[1..])
  }

  /** Joining the pieces of a split gives back the string. */
  lemma {:induction false} JoinSplit(s: string)
    ensures Join(Split(s)) == s
  {
    if |s| > 0 {
      var rest := Split(s[1..]);
      JoinSplit(s[1..]);
      if s[0] == '/' {
        assert Split(s)[1..] == rest;
        assert s == [s[0]] + s[1..];
      } else {
        var r := Split(s);
        assert r[0] == [s[0]] + rest[0];
        if |rest| == 1 {
          assert s == [s[0]] + s[1..];
        } else {
          assert r[1..] == rest[1..];
          assert Join(rest) == rest[0] + "/" + Join(rest[1..]);
          assert s == [s[0]] + s[1..];
        }
      }
    }
  }

  /** The part of `word` after its last `/` (the tail of `posixpath.split`). */
  function Tail(word: string): (r: string)
    ensures '/' !in r
    ensures '/' !in word ==> r == word
  {
    if |word| == 0 then ""
    else if word[|word| - 1] == '/' then ""
    else Tail(word[..|word| - 1]) + [word[|word| - 1]]
  }

  /** What one piece of the request contributes (mudi/server.py:28-36):
      empty pieces are dropped by `filter(None, ...)`; on POSIX
      `splitdrive` leaves the piece alone and `split` keeps its tail; `.` and
      `..` are skipped; anything else is joined on. */
  function Contribution(piece: string): (r: Path)
    ensures |r| <= 1
    ensures forall i :: 0 <= i < |r| ==> r[i] != "." && r[i] != ".."
    ensures '/' !in piece ==> (r == [] <==> piece in {"", ".", ".."})
    ensures '/' !in piece && r != [] ==> r == [piece]
  {
    if piece == "" then []
    else
      var word := Tail(piece);
      if word == "." || word == ".." || word == "" then [] else [word]
  }

  /** The reference definition: the contributions of the pieces, in order. */
  function Kept(pieces: seq<string>): (r: Path)
    ensures forall i :: 0 <= i < |r| ==> r[i] != "." && r[i] != ".."
  {
    if |pieces| == 0 then [] else Kept(pieces[..|pieces| - 1]) + Contribution(pieces[|pieces| - 1])
  }

  lemma KeptNext(pieces: seq<string>, i: nat)
    requires i < |pieces|
    ensures Kept(pieces[..i + 1]) == Kept(pieces[..i]) + Contribution(pieces[i])
  {
    assert pieces[..i + 1][..i] == pieces[..i];
  }

  /** One turn of the loop of `translate_path` (mudi/server.py:32-36) on a
      piece that survived `filter(None, ...)`. */
  method JoinWord(path: Path, word: string) returns (r: Path)
    requires word != ""
    ensures r == path + Contribution(word)
  {
    var tail := Tail(word);
    if tail == "." || tail == ".." || tail == "" {
      r := path;
      AppendNil(path);
    } else {
      r := path + [tail];
    }
  }

  /** `translate_path` (mudi/server.py:25-37). */
  method TranslatePath(basePath: Path, request: string, unquote: string -> string, normpath: string -> string)
    returns (r: Path)
    ensures r == basePath + Kept(Split(normpath(unquote(request))))
    ensures |basePath| <= |r| && r[..|basePath|] == basePath
    ensures forall i | |basePath| <= i < |r| :: r[i] != "." && r[i] != ".."
  {
    var words := Split(normpath(unquote(request)));
    r := basePath;
    for i := 0 to |words|
      invariant r == basePath + Kept(words[..i])
    {
      KeptNext(words, i);
      if words[i] != "" {
        r := JoinWord(r, words[i]);
        AppendAssoc(basePath, Kept(words[..i]), Contribution(words[i]));
      } else {
        AppendNil(Kept(words[..i]));
      }
    }
    assert words[..|words|] == words;
    var kept := Kept(words);
    AppendParts(basePath, kept);
    forall i | |basePath| <= i < |r|
      ensures r[i] != "." && r[i] != ".."
    {
      assert r[i] == kept[i - |basePath|];
    }
  }

  /** A request made only of ordinary parts is kept whole, in order. */
  lemma {:induction false} OrdinaryPiecesKept(pieces: seq<string>)
    requires forall i :: 0 <= i < |pieces| ==> '/' !in pieces[i]
    requires forall i :: 0 <= i < |pieces| ==> pieces[i] !in {"", ".", ".."}
    ensures |Kept(pieces)| == |pieces|
    ensures forall i :: 0 <= i < |pieces| ==> Kept(pieces)[i] == pieces[i]
  {
    if |pieces| > 0 {
      var init := pieces[..|pieces| - 1];
      OrdinaryPiecesKept(init);
    }
  }

  /** Dot parts and empty parts contribute nothing, wherever they appear: a
      `..` never climbs out of what came before it. */
  lemma {:induction false} DotPiecesIgnored(a: seq<string>, piece: string, b: seq<string>)
    requires piece in {"", ".", ".."}
    ensures Kept(a + [piece] + b) == Kept(a + b)
    decreases |b|
  {
    if |b| == 0 {
      assert (a + [piece] + b)[..|a|] == a;
      assert a + b == a;
    } else {
      var b' := b[..|b| - 1];
      var last := b[|b| - 1];
      DotPiecesIgnored(a, piece, b');
      assert (a + [piece] + b)[..|a + [piece] + b| - 1] == a + [piece] + b';
      assert (a + b)[..|a + b| - 1] == a + b';
    }
  }
}
