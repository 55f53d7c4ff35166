/**
 * The command-line weight parser (`parse_weights` in main.py): a
 * comma-separated list of `key=value` pieces becomes a map from the
 * whitespace-trimmed keys to the parsed values, a later key overriding an
 * earlier one. Python's `float` is a parameter: a partial function from
 * text to a number.
 */
module Weights {
  import opened Common
  import opened Text
  import Scoring

  datatype WeightError =
    | NotAString
    | MissingEquals(piece: string)
    | BadValue(key: string, value: string)

  /** The text before the piece's first `=`, trimmed. */
  function Key(piece: string): string
    requires '=' in piece
  {
    Strip(SplitFirst(piece, '=').0)
  }

  /** The text after the piece's first `=`, untrimmed. */
  function RawValue(piece: string): string
    requires '=' in piece
  {
    SplitFirst(piece, '=').1
  }

  /** A piece the parser accepts: it has an `=` and its trimmed value parses. */
  predicate PieceOk(piece: string, parseFloat: string -> Option<real>) {
    '=' in piece && parseFloat(Strip(RawValue(piece))).Some?
  }

  function Value(piece: string, parseFloat: string -> Option<real>): real
    requires PieceOk(piece, parseFloat)
  {
    parseFloat(Strip(RawValue(piece))).value
  }

  /** The error the parser reports for a piece it rejects. */
  function PieceError(piece: string, parseFloat: string -> Option<real>): WeightError
    requires !PieceOk(piece, parseFloat)
  {
    if '=' !in piece then MissingEquals(piece)
    else BadValue(SplitFirst(piece, '=').0, RawValue(piece))
  }

  /** `i` is the first piece the parser rejects. */
  predicate FirstBad(pieces: seq<string>, i: int, parseFloat: string -> Option<real>) {
    && 0 <= i < |pieces|
    && !PieceOk(pieces[i], parseFloat)
    && forall j :: 0 <= j < i ==> PieceOk(pieces[j], parseFloat)
  }

  /**
   * The parser's loop over the pieces, in order: it stops at the first
   * rejected piece, otherwise stores each trimmed key's value, overwriting
   * any earlier value of the same key.
   */
  function ParsePieces(pieces: seq<string>, parseFloat: string -> Option<real>): (r: Result<map<string, real>, WeightError>)
    ensures r.Ok? <==> forall i :: 0 <= i < |pieces| ==> PieceOk(pieces[i], parseFloat)
    ensures r.Err? ==> exists i :: FirstBad(pieces, i, parseFloat) && r.error == PieceError(pieces[i], parseFloat)
  {
    if |pieces| == 0 then Ok(map[])
    else
      var n := |pieces| - 1;
      var init := ParsePieces(pieces[..n], parseFloat);
      if init.Err? then
        var i :| FirstBad(pieces[..n], i, parseFloat) && init.error == PieceError(pieces[..n][i], parseFloat);
        FirstBadOfPrefix(pieces, n, i, parseFloat);
        init
      else
        AllOkOfPrefix(pieces, n, parseFloat);
        if !PieceOk(pieces[n], parseFloat) then
          Err(PieceError(pieces[n], parseFloat))
        else
          Ok(init.value[Key(pieces[n]) := Value(pieces[n], parseFloat)])
  }

  /** The first rejected piece of a prefix is the first rejected piece of the whole list. */
  lemma FirstBadOfPrefix(pieces: seq<string>, n: nat, i: int, parseFloat: string -> Option<real>)
    requires n <= |pieces| && FirstBad(pieces[..n], i, parseFloat)
    ensures FirstBad(pieces, i, parseFloat) && pieces[..n][i] == pieces[i]
  {
    assert forall j :: 0 <= j < n ==> pieces[..n][j] == pieces[j];
  }

  /**
   * When every piece of a prefix is accepted, the piece after it is the
   * first rejected one exactly when it is rejected, and all pieces up to it
   * are accepted exactly when it is.
   */
  lemma AllOkOfPrefix(pieces: seq<string>, n: nat, parseFloat: string -> Option<real>)
    requires n < |pieces| && forall i :: 0 <= i < n ==> PieceOk(pieces[..n][i], parseFloat)
    ensures !PieceOk(pieces[n], parseFloat) ==> FirstBad(pieces[..n + 1], n, parseFloat)
    ensures PieceOk(pieces[n], parseFloat) ==> forall i :: 0 <= i <= n ==> PieceOk(pieces[i], parseFloat)
  {
    assert forall j :: 0 <= j < n ==> pieces[..n][j] == pieces[j];
  }

  /** Piece `i` has an `=` and its trimmed key is `k`. */
  predicate KeyAt(pieces: seq<string>, i: int, k: string) {
    0 <= i < |pieces| && '=' in pieces[i] && Key(pieces[i]) == k
  }

  /** A successful parse has at most one entry per piece. */
  lemma ParsedSize(pieces: seq<string>, parseFloat: string -> Option<real>)
    requires ParsePieces(pieces, parseFloat).Ok?
    ensures |ParsePieces(pieces, parseFloat).value| <= |pieces|
  {
    ParsedAssigns(pieces, parseFloat);
    AssignSize(Assignments(pieces, parseFloat));
  }

  /** The keys of the result are exactly the pieces' trimmed keys. */
  lemma ParsedKeys(pieces: seq<string>, parseFloat: string -> Option<real>)
    requires ParsePieces(pieces, parseFloat).Ok?
    ensures forall k :: k in ParsePieces(pieces, parseFloat).value <==> exists i :: KeyAt(pieces, i, k)
  {
    var m := ParsePieces(pieces, parseFloat).value;
    ParsedAssigns(pieces, parseFloat);
    var kvs := Assignments(pieces, parseFloat);
    AssignKeys(kvs);
    forall k
      ensures k in m <==> exists i :: KeyAt(pieces, i, k)
    {
      if k in m {
        var i :| 0 <= i < |kvs| && kvs[i].0 == k;
        assert KeyAt(pieces, i, k);
      }
      if exists i :: KeyAt(pieces, i, k) {
        var i :| KeyAt(pieces, i, k);
        assert kvs[i].0 == k;
      }
    }
  }

  /**
   * `parse_weights`: a non-string is rejected; a string is accepted exactly
   * when each of its comma-separated pieces is, and then its keys are the
   * pieces' trimmed keys.
   */
  function ParseWeights(spec: Json, parseFloat: string -> Option<real>): (r: Result<map<string, real>, WeightError>)
    ensures !spec.JStr? ==> r == Err(NotAString)
    ensures spec.JStr? ==> (r.Ok? <==> forall piece :: piece in Split(spec.s, ',') ==> PieceOk(piece, parseFloat))
    ensures r.Ok? ==> forall k :: k in r.value <==> exists i :: KeyAt(Split(spec.s, ','), i, k)
    ensures r.Err? && spec.JStr? ==> exists i :: FirstBad(Split(spec.s, ','), i, parseFloat)
  {
    if !spec.JStr? then Err(NotAString)
    else
      var pieces := Split(spec.s, ',');
      var r := ParsePieces(pieces, parseFloat);
      if r.Ok? then
        ParsedKeys(pieces, parseFloat);
        r
      else r
  }

  /**
   * The last piece with a given key decides its value: a later duplicate
   * overrides an earlier one.
   */
  lemma LastPieceWins(pieces: seq<string>, parseFloat: string -> Option<real>, i: int)
    requires ParsePieces(pieces, parseFloat).Ok?
    requires 0 <= i < |pieces|
    requires forall j :: i < j < |pieces| ==> '=' in pieces[j] && '=' in pieces[i] && Key(pieces[j]) != Key(pieces[i])
    ensures PieceOk(pieces[i], parseFloat)
    ensures Key(pieces[i]) in ParsePieces(pieces, parseFloat).value
    ensures ParsePieces(pieces, parseFloat).value[Key(pieces[i])] == Value(pieces[i], parseFloat)
  {
    ParsedAssigns(pieces, parseFloat);
    AssignLastWins(Assignments(pieces, parseFloat), i);
  }

  /** The assignments `m[key] = value` of a sequence of pairs, made in order into an empty map. */
  function Assign(kvs: seq<(string, real)>): map<string, real>
  {
    if |kvs| == 0 then map[] else Assign(kvs[..|kvs| - 1])[kvs[|kvs| - 1].0 := kvs[|kvs| - 1].1]
  }

  /** A key's value is the one its last assignment gives it. */
  lemma {:induction false} AssignLastWins(kvs: seq<(string, real)>, i: int)
    requires 0 <= i < |kvs|
    requires forall j :: i < j < |kvs| ==> kvs[j].0 != kvs[i].0
    ensures kvs[i].0 in Assign(kvs) && Assign(kvs)[kvs[i].0] == kvs[i].1
    decreases |kvs|
  {
    var n := |kvs| - 1;
    if i < n {
      var init := kvs[..n];
      assert init[i] == kvs[i] && forall j :: i < j < n ==> init[j] == kvs[j];
      AssignLastWins(init, i);
    }
  }

  /** The keys assigned are the keys of the pairs. */
  lemma {:induction false} AssignKeys(kvs: seq<(string, real)>)
    ensures forall k :: k in Assign(kvs) <==> exists i :: 0 <= i < |kvs| && kvs[i].0 == k
    decreases |kvs|
  {
    if |kvs| > 0 {
      var n := |kvs| - 1;
      var init := kvs[..n];
      AssignKeys(init);
      forall k
        ensures k in Assign(kvs) <==> exists i :: 0 <= i < |kvs| && kvs[i].0 == k
      {
        if k == kvs[n].0 {
          assert kvs[n].0 == k;
        } else if k in Assign(init) {
          var i :| 0 <= i < n && init[i].0 == k;
          assert kvs[i].0 == k;
        }
        if exists i :: 0 <= i < |kvs| && kvs[i].0 == k {
          var i :| 0 <= i < |kvs| && kvs[i].0 == k;
          if i < n {
            assert init[i].0 == k;
          }
        }
      }
    }
  }

  /** Each assignment adds at most one key. */
  lemma {:induction false} AssignSize(kvs: seq<(string, real)>)
    ensures |Assign(kvs)| <= |kvs|
    decreases |kvs|
  {
    if |kvs| > 0 {
      var n := |kvs| - 1;
      AssignSize(kvs[..n]);
      var m0 := Assign(kvs[..n]);
      assert Assign(kvs).Keys <= m0.Keys + {kvs[n].0};
      assert |m0.Keys + {kvs[n].0}| <= |m0.Keys| + 1;
    }
  }

  /** The (trimmed key, value) pair of every piece, in order. */
  function Assignments(pieces: seq<string>, parseFloat: string -> Option<real>): (kvs: seq<(string, real)>)
    requires forall i :: 0 <= i < |pieces| ==> PieceOk(pieces[i], parseFloat)
    ensures |kvs| == |pieces|
    ensures forall i :: 0 <= i < |pieces| ==> PieceOk(pieces[i], parseFloat) && kvs[i] == (Key(pieces[i]), Value(pieces[i], parseFloat))
  {
    seq(|pieces|, i requires 0 <= i < |pieces| && PieceOk(pieces[i], parseFloat) => (Key(pieces[i]), Value(pieces[i], parseFloat)))
  }

  /** A successful parse makes the pieces' assignments in order. */
  lemma {:induction false} ParsedAssigns(pieces: seq<string>, parseFloat: string -> Option<real>)
    requires ParsePieces(pieces, parseFloat).Ok?
    ensures ParsePieces(pieces, parseFloat).value == Assign(Assignments(pieces, parseFloat))
    decreases |pieces|
  {
    if |pieces| > 0 {
      var n := |pieces| - 1;
      ParseLast(pieces, parseFloat);
      ParsedAssigns(pieces[..n], parseFloat);
      var kvs := Assignments(pieces, parseFloat);
      assert kvs[..n] == Assignments(pieces[..n], parseFloat);
    }
  }

  /** A successful parse is the parse of all but the last piece, updated with the last piece. */
  lemma ParseLast(pieces: seq<string>, parseFloat: string -> Option<real>)
    requires |pieces| > 0 && ParsePieces(pieces, parseFloat).Ok?
    ensures var n := |pieces| - 1;
            && ParsePieces(pieces[..n], parseFloat).Ok? && PieceOk(pieces[n], parseFloat)
            && ParsePieces(pieces, parseFloat).value
               == ParsePieces(pieces[..n], parseFloat).value[Key(pieces[n]) := Value(pieces[n], parseFloat)]
  {
  }

  /** The empty spec is one empty piece, which has no `=`. */
  lemma EmptySpecRejected(parseFloat: string -> Option<real>)
    ensures ParseWeights(JStr(""), parseFloat) == Err(MissingEquals(""))
  {
    assert Split("", ',') == [""];
  }

  /** Parsing a comma-joined list of comma-free pieces parses exactly those pieces. */
  lemma ParseJoined(pieces: seq<string>, parseFloat: string -> Option<real>)
    requires |pieces| > 0
    requires forall k :: 0 <= k < |pieces| ==> ',' !in pieces[k]
    ensures ParseWeights(JStr(Join(pieces, ',')), parseFloat) == ParsePieces(pieces, parseFloat)
  {
    SplitJoin(pieces, ',');
  }

  /** The command line's default spec. */
  const DefaultSpec: string := "health=0.45,trust=0.35,risk=0.20"

  /**
   * With a `float` that reads the three literals as written, the default
   * spec parses to health 0.45, trust 0.35 and risk 0.20, weights the scorer accepts.
   */
  lemma DefaultWeights(parseFloat: string -> Option<real>)
    requires parseFloat("0.45") == Some(0.45)
    requires parseFloat("0.35") == Some(0.35)
    requires parseFloat("0.20") == Some(0.20)
    ensures ParseWeights(JStr(DefaultSpec), parseFloat) == Ok(map["health" := 0.45, "trust" := 0.35, "risk" := 0.20])
    ensures Scoring.ValidWeights(ParseWeights(JStr(DefaultSpec), parseFloat).value)
  {
    SplitDefault();
    ParseDefaultPieces(parseFloat);
    DefaultMapValid();
  }

  lemma DefaultMapValid()
    ensures Scoring.ValidWeights(map["health" := 0.45, "trust" := 0.35, "risk" := 0.20])
  {
    var w := map["health" := 0.45, "trust" := 0.35, "risk" := 0.20];
    assert w.Keys == {"health", "trust", "risk"};
    assert w["health"] + w["trust"] + w["risk"] == 1.0;
  }

  lemma ParseDefaultPieces(parseFloat: string -> Option<real>)
    requires parseFloat("0.45") == Some(0.45)
    requires parseFloat("0.35") == Some(0.35)
    requires parseFloat("0.20") == Some(0.20)
    ensures ParsePieces(["health=0.45", "trust=0.35", "risk=0.20"], parseFloat)
            == Ok(map["health" := 0.45, "trust" := 0.35, "risk" := 0.20])
  {
    HealthPiece(parseFloat);
    TrustPiece(parseFloat);
    RiskPiece(parseFloat);
    ParseThree("health=0.45", "trust=0.35", "risk=0.20", parseFloat);
  }

  lemma HealthPiece(parseFloat: string -> Option<real>)
    requires parseFloat("0.45") == Some(0.45)
    ensures PieceOk("health=0.45", parseFloat)
    ensures Key("health=0.45") == "health" && Value("health=0.45", parseFloat) == 0.45
  {
    assert "health=0.45"[..6] == "health" && "health=0.45"[7..] == "0.45";
    PieceParses("health=0.45", 6, 0.45, parseFloat);
  }

  lemma TrustPiece(parseFloat: string -> Option<real>)
    requires parseFloat("0.35") == Some(0.35)
    ensures PieceOk("trust=0.35", parseFloat)
    ensures Key("trust=0.35") == "trust" && Value("trust=0.35", parseFloat) == 0.35
  {
    assert "trust=0.35"[..5] == "trust" && "trust=0.35"[6..] == "0.35";
    PieceParses("trust=0.35", 5, 0.35, parseFloat);
  }

  lemma RiskPiece(parseFloat: string -> Option<real>)
    requires parseFloat("0.20") == Some(0.20)
    ensures PieceOk("risk=0.20", parseFloat)
    ensures Key("risk=0.20") == "risk" && Value("risk=0.20", parseFloat) == 0.20
  {
    assert "risk=0.20"[..4] == "risk" && "risk=0.20"[5..] == "0.20";
    PieceParses("risk=0.20", 4, 0.20, parseFloat);
  }

  /** Three accepted pieces, stored in order. */
  lemma ParseThree(p0: string, p1: string, p2: string, parseFloat: string -> Option<real>)
    requires PieceOk(p0, parseFloat) && PieceOk(p1, parseFloat) && PieceOk(p2, parseFloat)
    ensures ParsePieces([p0, p1, p2], parseFloat)
            == Ok(map[Key(p0) := Value(p0, parseFloat)][Key(p1) := Value(p1, parseFloat)][Key(p2) := Value(p2, parseFloat)])
  {
    ParseSnoc([], p0, parseFloat);
    ParseSnoc([p0], p1, parseFloat);
    ParseSnoc([p0, p1], p2, parseFloat);
    assert [p0, p1] + [p2] == [p0, p1, p2];
  }

  /** One more accepted piece stores its value under its key. */
  lemma ParseSnoc(pieces: seq<string>, piece: string, parseFloat: string -> Option<real>)
    requires ParsePieces(pieces, parseFloat).Ok? && PieceOk(piece, parseFloat)
    ensures ParsePieces(pieces + [piece], parseFloat)
            == Ok(ParsePieces(pieces, parseFloat).value[Key(piece) := Value(piece, parseFloat)])
  {
    assert (pieces + [piece])[..|pieces|] == pieces;
  }

  /** The default spec splits into its three pieces. */
  lemma SplitDefault()
    ensures Split(DefaultSpec, ',') == ["health=0.45", "trust=0.35", "risk=0.20"]
  {
    DefaultPieces();
    SplitJoin(["health=0.45", "trust=0.35", "risk=0.20"], ',');
  }

  /** The default spec is its three pieces joined with commas. */
  lemma DefaultPieces()
    ensures Join(["health=0.45", "trust=0.35", "risk=0.20"], ',') == DefaultSpec
  {
    var pieces := ["health=0.45", "trust=0.35", "risk=0.20"];
    assert Join(pieces[2..], ',') == "risk=0.20";
    assert Join(pieces[1..], ',') == "trust=0.35,risk=0.20";
  }

  /**
   * A piece `key=value` whose `=` is at `at`, both parts starting and
   * ending with a printable character other than the blank:
   * its key is the text before the `=` and its value what `float` reads after it.
   */
  lemma PieceParses(piece: string, at: nat, v: real, parseFloat: string -> Option<real>)
    requires 0 < at < |piece| - 1 && piece[at] == '=' && '=' !in piece[..at]
    requires '!' <= piece[0] <= '~' && '!' <= piece[at - 1] <= '~'
    requires '!' <= piece[at + 1] <= '~' && '!' <= piece[|piece| - 1] <= '~'
    requires parseFloat(piece[at + 1..]) == Some(v)
    ensures PieceOk(piece, parseFloat)
    ensures Key(piece) == piece[..at] && Value(piece, parseFloat) == v
  {
    assert piece == piece[..at] + ['='] + piece[at + 1..];
    assert IndexOf(piece, '=') == at;
    PrintableIsNotSpace(piece[0]);
    PrintableIsNotSpace(piece[at - 1]);
    PrintableIsNotSpace(piece[at + 1]);
    PrintableIsNotSpace(piece[|piece| - 1]);
    StripKeeps(piece[..at]);
    StripKeeps(piece[at + 1..]);
  }

  /** A string that neither starts nor ends with white space is its own strip. */
  lemma StripKeeps(s: string)
    requires |s| > 0 && !IsSpace(s[0]) && !IsSpace(s[|s| - 1])
    ensures Strip(s) == s
  {
  }
}
