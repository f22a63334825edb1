/**
 * The string logic behind Haystack document ids in the Meilisearch backend:
 * the `.` -> `_` rewrite done on every id before indexing, and the
 * `split("_")` plus three-way unpacking that turns a hit id back into an
 * (app_label, model_name, pk) key. Both are modelled after the Python
 * built-ins they use (`str.replace`, `str.split` with an explicit separator,
 * tuple unpacking).
 */
module Identifiers {
  import opened Wrappers

  /** The separator that a normalised id uses between its parts. */
  const Separator: char := '_'

  /** The separator that Haystack's own identifiers use. */
  const Dot: char := '.'

  /** Number of occurrences of `c` in `s`. */
  function Count(s: string, c: char): (n: nat)
    ensures n <= |s|
    ensures n == 0 <==> c !in s
  {
    if s == [] then 0
    else (if s[0] == c then 1 else 0) + Count(s[1..], c)
  }

  lemma {:induction false} CountConcat(a: string, b: string, c: char)
    ensures Count(a + b, c) == Count(a, c) + Count(b, c)
  {
    if a != [] {
      assert (a + b)[1..] == a[1..] + b;
      CountConcat(a[1..], b, c);
    } else {
      assert a + b == b;
    }
  }

  /**
   * Python's `s.replace(target, replacement)` for single characters: every
   * occurrence of `target` becomes `replacement`, all other characters stay
   * where they are.
   */
  function Replace(s: string, target: char, replacement: char): (r: string)
    ensures |r| == |s|
    ensures forall i :: 0 <= i < |s| ==> r[i] == if s[i] == target then replacement else s[i]
  {
    if s == [] then []
    else [if s[0] == target then replacement else s[0]] + Replace(s[1..], target, replacement)
  }

  /**
   * After replacing `target` by `replacement`, the count of `replacement`
   * is the old count of both characters.
   */
  lemma {:induction false} CountReplace(s: string, target: char, replacement: char)
    requires target != replacement
    ensures Count(Replace(s, target, replacement), replacement) == Count(s, replacement) + Count(s, target)
  {
    if s != [] {
      var r := Replace(s, target, replacement);
      assert r[1..] == Replace(s[1..], target, replacement);
      CountReplace(s[1..], target, replacement);
    }
  }

  /** The id that `MeiliSearchBackend.update` stores: every `.` becomes `_`. */
  function NormaliseId(id: string): (r: string)
    ensures |r| == |id|
    ensures Dot !in r
    ensures forall i :: 0 <= i < |id| && id[i] != Dot ==> r[i] == id[i]
    ensures forall i :: 0 <= i < |id| && id[i] == Dot ==> r[i] == Separator
  {
    var r := Replace(id, Dot, Separator);
    assert forall i :: 0 <= i < |r| ==> r[i] != Dot;
    r
  }

  /** Normalising is idempotent. */
  lemma NormaliseIdIdempotent(id: string)
    ensures NormaliseId(NormaliseId(id)) == NormaliseId(id)
  {
  }

  /** An id without dots is left exactly as it is. */
  lemma NormaliseIdWithoutDots(id: string)
    requires Dot !in id
    ensures NormaliseId(id) == id
  {
  }

  /**
   * Python's `sep.join(pieces)`: the pieces in order, with one `sep`
   * between neighbours; when no piece holds `sep`, the result holds one
   * `sep` fewer than there are pieces.
   */
  function Join(pieces: seq<string>, sep: char): (s: string)
    ensures |pieces| >= 1 && (forall i :: 0 <= i < |pieces| ==> sep !in pieces[i]) ==>
      Count(s, sep) == |pieces| - 1
  {
    if pieces == [] then []
    else if |pieces| == 1 then pieces[0]
    else
      var tail := Join(pieces[1..], sep);
      CountConcat(pieces[0] + [sep], tail, sep);
      CountConcat(pieces[0], [sep], sep);
      assert Count([sep], sep) == 1 by { assert [sep][1..] == []; }
      pieces[0] + [sep] + tail
  }

  /**
   * Python's `s.split(sep)` for a one-character separator: the maximal runs
   * between separators, empty ones included, so there is always one piece
   * more than there are separators.
   */
  function Split(s: string, sep: char): (pieces: seq<string>)
    ensures |pieces| == Count(s, sep) + 1
    ensures forall i :: 0 <= i < |pieces| ==> sep !in pieces[i]
  {
    if s == [] then [[]]
    else
      var rest := Split(s[1..], sep);
      if s[0] == sep then [[]] + rest
      else [[s[0]] + rest[0]] + rest[1..]
  }

  /** One step of `Split`: the first character either ends the first piece or joins it. */
  lemma SplitCons(c: char, t: string, sep: char)
    ensures Split([c] + t, sep) ==
      if c == sep then [[]] + Split(t, sep) else [[c] + Split(t, sep)[0]] + Split(t, sep)[1..]
  {
    assert ([c] + t)[1..] == t;
  }

  /** One step of `Join`: a character put in front of the first piece comes first. */
  lemma JoinCons(c: char, pieces: seq<string>, sep: char)
    requires |pieces| >= 1
    ensures Join([[c] + pieces[0]] + pieces[1..], sep) == [c] + Join(pieces, sep)
  {
    var longer := [[c] + pieces[0]] + pieces[1..];
    assert longer[0] == [c] + pieces[0] && longer[1..] == pieces[1..];
  }

  /** Splitting loses nothing: joining the pieces gives the string back. */
  lemma {:induction false} JoinSplit(s: string, sep: char)
    ensures Join(Split(s, sep), sep) == s
  {
    if s != [] {
      var t := s[1..];
      assert s == [s[0]] + t;
      SplitCons(s[0], t, sep);
      JoinSplit(t, sep);
      var rest := Split(t, sep);
      if s[0] == sep {
        assert ([[]] + rest)[0] == [] && ([[]] + rest)[1..] == rest;
      } else {
        JoinCons(s[0], rest, sep);
      }
    }
  }

  /** Splitting a string without separators gives just that string. */
  lemma {:induction false} SplitNoSeparator(p: string, sep: char)
    requires sep !in p
    ensures Split(p, sep) == [p]
  {
    if p != [] {
      var t := p[1..];
      assert p == [p[0]] + t;
      assert sep !in t;
      SplitCons(p[0], t, sep);
      SplitNoSeparator(t, sep);
    }
  }

  /** Splitting `p + sep + t`, when `p` has no separator, peels off `p`. */
  lemma {:induction false} SplitFirstPiece(p: string, t: string, sep: char)
    requires sep !in p
    ensures Split(p + [sep] + t, sep) == [p] + Split(t, sep)
  {
    if p == [] {
      assert [] + [sep] + t == [sep] + t;
      SplitCons(sep, t, sep);
    } else {
      var tail := p[1..] + [sep] + t;
      assert p + [sep] + t == [p[0]] + tail;
      assert p == [p[0]] + p[1..];
      assert sep !in p[1..];
      SplitFirstPiece(p[1..], t, sep);
      SplitCons(p[0], tail, sep);
    }
  }

  /** Joining pieces free of the separator and splitting again gives them back. */
  lemma {:induction false} SplitJoin(pieces: seq<string>, sep: char)
    requires |pieces| >= 1
    requires forall i :: 0 <= i < |pieces| ==> sep !in pieces[i]
    ensures Split(Join(pieces, sep), sep) == pieces
  {
    if |pieces| == 1 {
      SplitNoSeparator(pieces[0], sep);
    } else {
      SplitJoin(pieces[1..], sep);
      SplitFirstPiece(pieces[0], Join(pieces[1..], sep), sep);
      assert pieces == [pieces[0]] + pieces[1..];
    }
  }

  /** What a hit id decodes to: the three parts of a Haystack identifier. */
  datatype DocumentKey = DocumentKey(appLabel: string, modelName: string, pk: string)

  /** The ValueError raised when `split("_")` does not give exactly three pieces. */
  datatype UnpackError =
    | NotEnoughValues(got: nat)  // "not enough values to unpack (expected 3, got N)"
    | TooManyValues              // "too many values to unpack (expected 3)"

  /**
   * `app_label, model_name, pk = id.split("_")`: succeeds exactly when the
   * id has two underscores, and then the three parts, joined by `_`, are
   * the id again.
   */
  function DecodeId(id: string): (r: Result<DocumentKey, UnpackError>)
    ensures r.Success? <==> Count(id, Separator) == 2
    ensures r.Success? ==>
      Join([r.value.appLabel, r.value.modelName, r.value.pk], Separator) == id &&
      Separator !in r.value.appLabel && Separator !in r.value.modelName && Separator !in r.value.pk
    ensures r.Failure? && Count(id, Separator) < 2 ==> r.error == NotEnoughValues(Count(id, Separator) + 1)
    ensures r.Failure? && Count(id, Separator) > 2 ==> r.error == TooManyValues
  {
    var pieces := Split(id, Separator);
    if |pieces| < 3 then Failure(NotEnoughValues(|pieces|))
    else if |pieces| > 3 then Failure(TooManyValues)
    else
      JoinSplit(id, Separator);
      assert pieces == [pieces[0], pieces[1], pieces[2]];
      Success(DocumentKey(pieces[0], pieces[1], pieces[2]))
  }

  /** Haystack's identifier format: `app_label.model_name.pk`. */
  function Dotted(appLabel: string, modelName: string, pk: string): (s: string)
  {
    appLabel + [Dot] + modelName + [Dot] + pk
  }

  lemma CountDotted(appLabel: string, modelName: string, pk: string, c: char)
    ensures Count(Dotted(appLabel, modelName, pk), c) ==
      Count(appLabel, c) + Count(modelName, c) + Count(pk, c) + (if c == Dot then 2 else 0)
  {
    CountConcat(appLabel + [Dot] + modelName + [Dot], pk, c);
    CountConcat(appLabel + [Dot] + modelName, [Dot], c);
    CountConcat(appLabel + [Dot], modelName, c);
    CountConcat(appLabel, [Dot], c);
    assert Count([Dot], c) == (if c == Dot then 1 else 0) by {
      assert [Dot][1..] == [];
    }
  }

  lemma NormaliseDotted(appLabel: string, modelName: string, pk: string)
    requires Dot !in appLabel && Dot !in modelName && Dot !in pk
    ensures NormaliseId(Dotted(appLabel, modelName, pk)) == Join([appLabel, modelName, pk], Separator)
  {
    var raw := Dotted(appLabel, modelName, pk);
    var id := NormaliseId(raw);
    var joined := appLabel + [Separator] + modelName + [Separator] + pk;
    assert |raw| == |joined|;
    forall i | 0 <= i < |raw| ensures id[i] == joined[i] {
      if i < |appLabel| {
        assert raw[i] == appLabel[i] && joined[i] == appLabel[i];
        assert appLabel[i] in appLabel;
      } else if i == |appLabel| {
        assert raw[i] == Dot;
      } else if i < |appLabel| + 1 + |modelName| {
        assert raw[i] == modelName[i - |appLabel| - 1] && joined[i] == modelName[i - |appLabel| - 1];
        assert modelName[i - |appLabel| - 1] in modelName;
      } else if i == |appLabel| + 1 + |modelName| {
        assert raw[i] == Dot;
      } else {
        var k := i - |appLabel| - |modelName| - 2;
        assert raw[i] == pk[k] && joined[i] == pk[k];
        assert pk[k] in pk;
      }
    }
    assert id == joined;
    var pieces := [appLabel, modelName, pk];
    assert pieces[1..] == [modelName, pk];
    assert [modelName, pk][1..] == [pk];
    assert Join([pk], Separator) == pk;
    assert Join([modelName, pk], Separator) == modelName + [Separator] + pk;
    assert Join(pieces, Separator) == appLabel + [Separator] + (modelName + [Separator] + pk);
  }

  /** Three parts without `_`, joined by `_`, decode to those parts. */
  lemma DecodeJoined(appLabel: string, modelName: string, pk: string)
    requires Separator !in appLabel && Separator !in modelName && Separator !in pk
    ensures DecodeId(Join([appLabel, modelName, pk], Separator)) == Success(DocumentKey(appLabel, modelName, pk))
  {
    var pieces := [appLabel, modelName, pk];
    SplitJoin(pieces, Separator);
    assert Split(Join(pieces, Separator), Separator) == pieces;
  }

  /**
   * Haystack writes an identifier as `app_label.model_name.pk`. After the
   * rewrite done by `update`, decoding a hit with that id succeeds exactly
   * when no part contains `.` or `_`, and then it gives the three parts
   * back. A part with either character adds an underscore and makes the
   * unpacking fail.
   */
  lemma RoundTrip(appLabel: string, modelName: string, pk: string)
    ensures var r := DecodeId(NormaliseId(Dotted(appLabel, modelName, pk)));
      r.Success? <==> (Dot !in appLabel && Separator !in appLabel &&
                       Dot !in modelName && Separator !in modelName &&
                       Dot !in pk && Separator !in pk)
    ensures var r := DecodeId(NormaliseId(Dotted(appLabel, modelName, pk)));
      r.Success? ==> r.value == DocumentKey(appLabel, modelName, pk)
  {
    var raw := Dotted(appLabel, modelName, pk);
    var id := NormaliseId(raw);
    CountReplace(raw, Dot, Separator);
    CountDotted(appLabel, modelName, pk, Separator);
    CountDotted(appLabel, modelName, pk, Dot);
    assert Count(id, Separator) ==
      2 + Count(appLabel, Separator) + Count(appLabel, Dot) + Count(modelName, Separator)
        + Count(modelName, Dot) + Count(pk, Separator) + Count(pk, Dot);
    if Count(id, Separator) == 2 {
      NormaliseDotted(appLabel, modelName, pk);
      DecodeJoined(appLabel, modelName, pk);
    }
  }
}
