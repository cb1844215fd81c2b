/**
 * The request side of `trash` (api/controllers/photosController.js): the
 * `ids` body parameter is checked for presence, split on "," and every piece
 * is converted to an ObjectId before anything is updated.
 */
module TrashRequest {
  import opened Wrappers

  /** `s.split(",")` in JavaScript: the text between commas, empty pieces kept. */
  function Split(s: string): (pieces: seq<string>)
    ensures |pieces| >= 1
    ensures forall i :: 0 <= i < |pieces| ==> ',' !in pieces[i]
  {
    if s == [] then [""]
    else
      var rest := Split(s[1..]);
      if s[0] == ',' then [""] + rest
      else [[s[0]] + rest[0]] + rest[1..]
  }

  /** `pieces.join(",")`, the inverse of Split. */
  function Join(pieces: seq<string>): (s: string) {
    if |pieces| == 0 then ""
    else if |pieces| == 1 then pieces[0]
    else pieces[0] + "," + Join(pieces[1..])
  }

  /** Joining the pieces gives back the text that was split. */
  lemma {:induction false} JoinSplit(s: string)
    ensures Join(Split(s)) == s
  {
    if s != [] {
      var rest := Split(s[1..]);
      JoinSplit(s[1..]);
      if s[0] == ',' {
        assert Split(s) == [""] + rest;
        assert Join(Split(s)) == "" + "," + Join(rest);
      } else {
        var pieces := [[s[0]] + rest[0]] + rest[1..];
        assert Split(s) == pieces;
        if |rest| == 1 {
          assert Join(pieces) == [s[0]] + rest[0];
        } else {
          assert pieces[1..] == rest[1..];
          assert Join(pieces) == [s[0]] + rest[0] + "," + Join(rest[1..]);
        }
      }
    }
  }

  /** Splitting a comma-free text followed by more text extends the first piece. */
  lemma {:induction false} SplitPrefix(a: string, b: string)
    requires ',' !in a
    ensures Split(a + b) == [a + Split(b)[0]] + Split(b)[1..]
  {
    if a != [] {
      assert (a + b)[1..] == a[1..] + b;
      SplitPrefix(a[1..], b);
      assert [a[0]] + (a[1..] + Split(b)[0]) == a + Split(b)[0];
    } else {
      assert a + b == b;
      assert a + Split(b)[0] == Split(b)[0];
    }
  }

  /** Splitting joined comma-free pieces gives the pieces back. */
  lemma {:induction false} SplitJoin(pieces: seq<string>)
    requires |pieces| >= 1
    requires forall i :: 0 <= i < |pieces| ==> ',' !in pieces[i]
    ensures Split(Join(pieces)) == pieces
  {
    if |pieces| == 1 {
      SplitPrefix(pieces[0], "");
      assert pieces[0] + "" == pieces[0];
    } else {
      var tail := Join(pieces[1..]);
      SplitJoin(pieces[1..]);
      assert Join(pieces) == pieces[0] + ("," + tail);
      SplitPrefix(pieces[0], "," + tail);
      assert ("," + tail)[1..] == tail;
      assert Split("," + tail) == [""] + Split(tail);
      assert pieces[0] + "" == pieces[0];
    }
  }

  predicate IsHexDigit(c: char) {
    '0' <= c <= '9' || 'a' <= c <= 'f' || 'A' <= c <= 'F'
  }

  predicate IsLowerHexDigit(c: char) {
    '0' <= c <= '9' || 'a' <= c <= 'f'
  }

  /** The canonical text of an ObjectId: 24 lower-case hexadecimal digits. */
  predicate IsCanonicalId(s: string) {
    |s| == 24 && forall i :: 0 <= i < |s| ==> IsLowerHexDigit(s[i])
  }

  type ObjectId = s: string | IsCanonicalId(s) witness "000000000000000000000000"

  function LowerHex(c: char): (d: char)
    requires IsHexDigit(c)
    ensures IsLowerHexDigit(d)
  {
    if 'A' <= c <= 'F' then (c - 'A' + 'a') as char else c
  }

  /** `mongoose.Types.ObjectId(s)`: None where the conversion throws. */
  function ParseObjectId(s: string): (r: Option<ObjectId>)
    ensures r.Some? <==> |s| == 24 && forall i :: 0 <= i < |s| ==> IsHexDigit(s[i])
    ensures r.Some? ==> forall i :: 0 <= i < 24 ==> r.value[i] == LowerHex(s[i])
  {
    if |s| == 24 && forall i :: 0 <= i < |s| ==> IsHexDigit(s[i]) then
      var id := seq(24, i requires 0 <= i < 24 => LowerHex(s[i]));
      assert IsCanonicalId(id);
      Some(id)
    else None
  }

  /** An ObjectId's own text converts back to that ObjectId. */
  lemma ParseCanonical(id: ObjectId)
    ensures ParseObjectId(id) == Some(id)
  {
    var r := ParseObjectId(id);
    assert r.Some?;
    assert r.value == id;
  }

  /** Every piece is an ObjectId, so that converting all of them does not throw. */
  predicate AllConvert(pieces: seq<string>) {
    forall i :: 0 <= i < |pieces| ==> ParseObjectId(pieces[i]).Some?
  }

  /** `pieces.map(ObjectId)`: all pieces converted, or None at the first that throws. */
  function ParseIds(pieces: seq<string>): (r: Option<seq<ObjectId>>)
    ensures r.Some? <==> AllConvert(pieces)
    ensures r.Some? ==> |r.value| == |pieces|
    ensures r.Some? ==> forall i :: 0 <= i < |pieces| ==> ParseObjectId(pieces[i]) == Some(r.value[i])
  {
    if pieces == [] then Some([])
    else
      match ParseObjectId(pieces[0])
      case None => None
      case Some(id) =>
        match ParseIds(pieces[1..])
        case None => None
        case Some(ids) => Some([id] + ids)
  }

  /** What the `ids` parameter asks for. */
  datatype IdsRequest =
    | Missing                    // absent or "": PARAM_MISSING
    | Malformed                  // some piece is not an ObjectId: the conversion throws
    | Ids(ids: set<ObjectId>)    // the ids to trash

  /** Reads the `ids` parameter in the source's order: presence first, then every conversion. */
  function ReadIds(param: Option<string>): (r: IdsRequest)
    ensures r.Missing? <==> param.None? || param.value == ""
    ensures r.Malformed? <==> param.Some? && param.value != "" && !AllConvert(Split(param.value))
  {
    if param.None? || param.value == "" then Missing
    else
      var pieces := Split(param.value);
      var parsed := ParseIds(pieces);
      if parsed.None? then Malformed
      else
        var ids := parsed.value;
        Ids(IdSet(ids))
  }

  function IdSet(ids: seq<ObjectId>): (r: set<ObjectId>) {
    set i | 0 <= i < |ids| :: ids[i]
  }

  /** Some piece converts to `id`. */
  predicate ConvertsTo(pieces: seq<string>, id: ObjectId) {
    exists i :: 0 <= i < |pieces| && ParseObjectId(pieces[i]) == Some(id)
  }

  /** The ids to trash are exactly the ObjectIds the pieces of the parameter convert to. */
  lemma ReadIdsChoosesPieces(param: Option<string>)
    requires ReadIds(param).Ids?
    ensures forall id: ObjectId :: id in ReadIds(param).ids <==> ConvertsTo(Split(param.value), id)
  {
  }

  /** A trailing comma leaves an empty piece, which is not an ObjectId. */
  lemma TrailingCommaIsMalformed(id: ObjectId)
    ensures ReadIds(Some(id + ",")).Malformed?
  {
    SplitPrefix(id, ",");
    assert Split(",") == [""] + Split("");
    assert id + "" == id;
    var pieces := Split(id + ",");
    assert pieces == [id, ""];
    assert ParseObjectId(pieces[1]).None?;
  }
}
