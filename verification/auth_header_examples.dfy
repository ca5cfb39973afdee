/**
  Concrete headers run through `AuthHeaderItems.Tokenize` and `AuthHeader.ParseHeader`: a
  challenge with a quoted and a bare value, a bare scheme, a quoted value holding an escaped
  quote, and two challenges in one header.

  Each `...Chars` predicate fixes a header's characters, the `...Scan` lemmas step the scanner
  through them in stretches, the `...Items` lemma gives the items and the `...Parse` lemma the
  result of `ParseHeader`; the `...Example` lemma states that result for the literal header.
*/
module AuthHeaderExamples {
  import opened Outcomes
  import opened AuthHeaderItems
  import opened AuthHeader


  predicate PairChars(h: string) {
    |h| == 21 && h[0] == 'B' && h[1] == 'e' && h[2] == 'a' && h[3] == 'r' && h[4] == 'e' && h[5] == 'r' && h[6] == ' ' && h[7] == 'k' && h[8] == '1' && h[9] == '=' && h[10] == '"' && h[11] == 'v' && h[12] == '1' && h[13] == '"' && h[14] == ',' && h[15] == ' ' && h[16] == 'k' && h[17] == '2' && h[18] == '=' && h[19] == 'v' && h[20] == '2'
  }
  lemma PairScan8(h: string)
    requires PairChars(h)
    ensures Scan(h, 8) == Scanner(7, false, false, [Span(0, 6)])
  {
    assert Scan(h, 1) == Scanner(0, false, false, []);
    assert Scan(h, 2) == Scanner(0, false, false, []);
    assert Scan(h, 3) == Scanner(0, false, false, []);
    assert Scan(h, 4) == Scanner(0, false, false, []);
    assert Scan(h, 5) == Scanner(0, false, false, []);
    assert Scan(h, 6) == Scanner(0, false, false, []);
    assert Scan(h, 7) == Scanner(7, false, false, [Span(0, 6)]);
  }
  lemma PairScan16(h: string)
    requires PairChars(h)
    ensures Scan(h, 16) == Scanner(16, false, false, [Span(0, 6), Span(7, 9), Span(9, 10), Span(11, 13), Span(14, 15)])
  {
    PairScan8(h);
    assert Scan(h, 9) == Scanner(7, false, false, [Span(0, 6)]);
    assert Scan(h, 10) == Scanner(10, false, false, [Span(0, 6), Span(7, 9), Span(9, 10)]);
    assert Scan(h, 11) == Scanner(11, false, true, [Span(0, 6), Span(7, 9), Span(9, 10)]);
    assert Scan(h, 12) == Scanner(11, false, true, [Span(0, 6), Span(7, 9), Span(9, 10)]);
    assert Scan(h, 13) == Scanner(11, false, true, [Span(0, 6), Span(7, 9), Span(9, 10)]);
    assert Scan(h, 14) == Scanner(14, false, false, [Span(0, 6), Span(7, 9), Span(9, 10), Span(11, 13)]);
    assert Scan(h, 15) == Scanner(15, false, false, [Span(0, 6), Span(7, 9), Span(9, 10), Span(11, 13), Span(14, 15)]);
  }
  lemma PairScan21(h: string)
    requires PairChars(h)
    ensures Scan(h, 21) == Scanner(19, false, false, [Span(0, 6), Span(7, 9), Span(9, 10), Span(11, 13), Span(14, 15), Span(16, 18), Span(18, 19)])
  {
    PairScan16(h);
    assert Scan(h, 17) == Scanner(16, false, false, [Span(0, 6), Span(7, 9), Span(9, 10), Span(11, 13), Span(14, 15)]);
    assert Scan(h, 18) == Scanner(16, false, false, [Span(0, 6), Span(7, 9), Span(9, 10), Span(11, 13), Span(14, 15)]);
    assert Scan(h, 19) == Scanner(19, false, false, [Span(0, 6), Span(7, 9), Span(9, 10), Span(11, 13), Span(14, 15), Span(16, 18), Span(18, 19)]);
    assert Scan(h, 20) == Scanner(19, false, false, [Span(0, 6), Span(7, 9), Span(9, 10), Span(11, 13), Span(14, 15), Span(16, 18), Span(18, 19)]);
  }
  lemma PairItems(h: string)
    requires PairChars(h)
    ensures Tokenize(h) == ["Bearer", "k1", "=", "v1", ",", "k2", "=", "v2"]
  {
    PairScan21(h);
    assert TokenSpans(h) == [Span(0, 6), Span(7, 9), Span(9, 10), Span(11, 13), Span(14, 15), Span(16, 18), Span(18, 19), Span(19, 21)];
    assert h[0..6] == "Bearer";
    assert h[7..9] == "k1";
    assert h[9..10] == "=";
    assert h[11..13] == "v1";
    assert h[14..15] == ",";
    assert h[16..18] == "k2";
    assert h[18..19] == "=";
    assert h[19..21] == "v2";
  }


  /** `Bearer k1="v1", k2=v2` gives `{Bearer: {k1: v1, k2: v2}}`. */
  lemma PairParse(h: string)
    requires PairChars(h)
    ensures ParseHeader(h) == Ok(map["Bearer" := map["k1" := "v1", "k2" := "v2"]])
  {
    PairItems(h);
    var ps := [Param("k1", "v1"), Param("k2", "v2")];
    SingleChallenge("Bearer", ps);
    assert ChallengeItems("Bearer", ps) == ["Bearer", "k1", "=", "v1", ",", "k2", "=", "v2"];
    assert ParamMap(ps) == map["k1" := "v1", "k2" := "v2"];
    assert !IsWhitespace(h[0]);
  }

  lemma PairLiteral()
    ensures PairChars("Bearer k1=\"v1\", k2=v2")
  {
    var h := "Bearer k1=\"v1\", k2=v2";
    assert h[0] == 'B' && h[1] == 'e' && h[2] == 'a' && h[3] == 'r' && h[4] == 'e' && h[5] == 'r' && h[6] == ' ' && h[7] == 'k' && h[8] == '1' && h[9] == '=' && h[10] == '"';
    assert h[11] == 'v' && h[12] == '1' && h[13] == '"' && h[14] == ',' && h[15] == ' ' && h[16] == 'k' && h[17] == '2' && h[18] == '=' && h[19] == 'v' && h[20] == '2';
  }

  lemma PairExample()
    ensures ParseHeader("Bearer k1=\"v1\", k2=v2") == Ok(map["Bearer" := map["k1" := "v1", "k2" := "v2"]])
  {
    PairLiteral();
    PairParse("Bearer k1=\"v1\", k2=v2");
  }

  predicate EscapedChars(h: string) {
    |h| == 22 && h[0] == 'B' && h[1] == 'e' && h[2] == 'a' && h[3] == 'r' && h[4] == 'e' && h[5] == 'r' && h[6] == ' ' && h[7] == 'r' && h[8] == 'e' && h[9] == 's' && h[10] == 'o' && h[11] == 'u' && h[12] == 'r' && h[13] == 'c' && h[14] == 'e' && h[15] == '=' && h[16] == '"' && h[17] == 'a' && h[18] == '\\' && h[19] == '"' && h[20] == 'b' && h[21] == '"'
  }
  lemma EscapedScan8(h: string)
    requires EscapedChars(h)
    ensures Scan(h, 8) == Scanner(7, false, false, [Span(0, 6)])
  {
    assert Scan(h, 1) == Scanner(0, false, false, []);
    assert Scan(h, 2) == Scanner(0, false, false, []);
    assert Scan(h, 3) == Scanner(0, false, false, []);
    assert Scan(h, 4) == Scanner(0, false, false, []);
    assert Scan(h, 5) == Scanner(0, false, false, []);
    assert Scan(h, 6) == Scanner(0, false, false, []);
    assert Scan(h, 7) == Scanner(7, false, false, [Span(0, 6)]);
  }
  lemma EscapedScan16(h: string)
    requires EscapedChars(h)
    ensures Scan(h, 16) == Scanner(16, false, false, [Span(0, 6), Span(7, 15), Span(15, 16)])
  {
    EscapedScan8(h);
    assert Scan(h, 9) == Scanner(7, false, false, [Span(0, 6)]);
    assert Scan(h, 10) == Scanner(7, false, false, [Span(0, 6)]);
    assert Scan(h, 11) == Scanner(7, false, false, [Span(0, 6)]);
    assert Scan(h, 12) == Scanner(7, false, false, [Span(0, 6)]);
    assert Scan(h, 13) == Scanner(7, false, false, [Span(0, 6)]);
    assert Scan(h, 14) == Scanner(7, false, false, [Span(0, 6)]);
    assert Scan(h, 15) == Scanner(7, false, false, [Span(0, 6)]);
  }
  lemma EscapedScan22(h: string)
    requires EscapedChars(h)
    ensures Scan(h, 22) == Scanner(22, false, false, [Span(0, 6), Span(7, 15), Span(15, 16), Span(17, 21)])
  {
    EscapedScan16(h);
    assert Scan(h, 17) == Scanner(17, false, true, [Span(0, 6), Span(7, 15), Span(15, 16)]);
    assert Scan(h, 18) == Scanner(17, false, true, [Span(0, 6), Span(7, 15), Span(15, 16)]);
    assert Scan(h, 19) == Scanner(17, true, true, [Span(0, 6), Span(7, 15), Span(15, 16)]);
    assert Scan(h, 20) == Scanner(17, false, true, [Span(0, 6), Span(7, 15), Span(15, 16)]);
    assert Scan(h, 21) == Scanner(17, false, true, [Span(0, 6), Span(7, 15), Span(15, 16)]);
  }
  lemma EscapedItems(h: string)
    requires EscapedChars(h)
    ensures Tokenize(h) == ["Bearer", "resource", "=", "a\\\"b"]
  {
    EscapedScan22(h);
    assert TokenSpans(h) == [Span(0, 6), Span(7, 15), Span(15, 16), Span(17, 21)];
    assert h[0..6] == "Bearer";
    assert h[7..15] == "resource";
    assert h[15..16] == "=";
    assert h[17..21] == "a\\\"b";
  }


  /** An escaped quote does not end the quoted value, and its backslash stays in it. */
  lemma EscapedParse(h: string)
    requires EscapedChars(h)
    ensures ParseHeader(h) == Ok(map["Bearer" := map["resource" := "a\\\"b"]])
  {
    EscapedItems(h);
    var ps := [Param("resource", "a\\\"b")];
    SingleChallenge("Bearer", ps);
    assert ChallengeItems("Bearer", ps) == ["Bearer", "resource", "=", "a\\\"b"];
    assert !IsWhitespace(h[0]);
  }

  lemma EscapedLiteral()
    ensures EscapedChars("Bearer resource=\"a\\\"b\"")
  {
    var h := "Bearer resource=\"a\\\"b\"";
    assert h[0] == 'B' && h[1] == 'e' && h[2] == 'a' && h[3] == 'r' && h[4] == 'e' && h[5] == 'r' && h[6] == ' ' && h[7] == 'r' && h[8] == 'e' && h[9] == 's' && h[10] == 'o';
    assert h[11] == 'u' && h[12] == 'r' && h[13] == 'c' && h[14] == 'e' && h[15] == '=' && h[16] == '"' && h[17] == 'a' && h[18] == '\\' && h[19] == '"' && h[20] == 'b' && h[21] == '"';
  }

  lemma EscapedExample()
    ensures ParseHeader("Bearer resource=\"a\\\"b\"") == Ok(map["Bearer" := map["resource" := "a\\\"b"]])
  {
    EscapedLiteral();
    EscapedParse("Bearer resource=\"a\\\"b\"");
  }

  predicate BareChars(h: string) {
    |h| == 6 && h[0] == 'B' && h[1] == 'e' && h[2] == 'a' && h[3] == 'r' && h[4] == 'e' && h[5] == 'r'
  }
  lemma BareScan6(h: string)
    requires BareChars(h)
    ensures Scan(h, 6) == Scanner(0, false, false, [])
  {
    assert Scan(h, 1) == Scanner(0, false, false, []);
    assert Scan(h, 2) == Scanner(0, false, false, []);
    assert Scan(h, 3) == Scanner(0, false, false, []);
    assert Scan(h, 4) == Scanner(0, false, false, []);
    assert Scan(h, 5) == Scanner(0, false, false, []);
  }
  lemma BareItems(h: string)
    requires BareChars(h)
    ensures Tokenize(h) == ["Bearer"]
  {
    BareScan6(h);
    assert TokenSpans(h) == [Span(0, 6)];
    assert h[0..6] == "Bearer";
  }


  /** A scheme alone gives a challenge without parameters. */
  lemma BareParse(h: string)
    requires BareChars(h)
    ensures ParseHeader(h) == Ok(map["Bearer" := map[]])
  {
    BareItems(h);
    SingleChallenge("Bearer", []);
    assert ChallengeItems("Bearer", []) == ["Bearer"];
    assert !IsWhitespace(h[0]);
  }

  lemma BareLiteral()
    ensures BareChars("Bearer")
  {
    var h := "Bearer";
    assert h[0] == 'B' && h[1] == 'e' && h[2] == 'a' && h[3] == 'r' && h[4] == 'e' && h[5] == 'r';
  }

  lemma BareExample()
    ensures ParseHeader("Bearer") == Ok(map["Bearer" := map[]])
  {
    BareLiteral();
    BareParse("Bearer");
  }

  predicate TwoChars(h: string) {
    |h| == 36 && h[0] == 'B' && h[1] == 'a' && h[2] == 's' && h[3] == 'i' && h[4] == 'c' && h[5] == ' ' && h[6] == 'r' && h[7] == 'e' && h[8] == 'a' && h[9] == 'l' && h[10] == 'm' && h[11] == '=' && h[12] == '"' && h[13] == 'x' && h[14] == '"' && h[15] == ',' && h[16] == ' ' && h[17] == 'B' && h[18] == 'e' && h[19] == 'a' && h[20] == 'r' && h[21] == 'e' && h[22] == 'r' && h[23] == ' ' && h[24] == 'r' && h[25] == 'e' && h[26] == 's' && h[27] == 'o' && h[28] == 'u' && h[29] == 'r' && h[30] == 'c' && h[31] == 'e' && h[32] == '=' && h[33] == '"' && h[34] == 'y' && h[35] == '"'
  }
  lemma TwoScan8(h: string)
    requires TwoChars(h)
    ensures Scan(h, 8) == Scanner(6, false, false, [Span(0, 5)])
  {
    assert Scan(h, 1) == Scanner(0, false, false, []);
    assert Scan(h, 2) == Scanner(0, false, false, []);
    assert Scan(h, 3) == Scanner(0, false, false, []);
    assert Scan(h, 4) == Scanner(0, false, false, []);
    assert Scan(h, 5) == Scanner(0, false, false, []);
    assert Scan(h, 6) == Scanner(6, false, false, [Span(0, 5)]);
    assert Scan(h, 7) == Scanner(6, false, false, [Span(0, 5)]);
  }
  lemma TwoScan16(h: string)
    requires TwoChars(h)
    ensures Scan(h, 16) == Scanner(16, false, false, [Span(0, 5), Span(6, 11), Span(11, 12), Span(13, 14), Span(15, 16)])
  {
    TwoScan8(h);
    assert Scan(h, 9) == Scanner(6, false, false, [Span(0, 5)]);
    assert Scan(h, 10) == Scanner(6, false, false, [Span(0, 5)]);
    assert Scan(h, 11) == Scanner(6, false, false, [Span(0, 5)]);
    assert Scan(h, 12) == Scanner(12, false, false, [Span(0, 5), Span(6, 11), Span(11, 12)]);
    assert Scan(h, 13) == Scanner(13, false, true, [Span(0, 5), Span(6, 11), Span(11, 12)]);
    assert Scan(h, 14) == Scanner(13, false, true, [Span(0, 5), Span(6, 11), Span(11, 12)]);
    assert Scan(h, 15) == Scanner(15, false, false, [Span(0, 5), Span(6, 11), Span(11, 12), Span(13, 14)]);
  }
  lemma TwoScan24(h: string)
    requires TwoChars(h)
    ensures Scan(h, 24) == Scanner(24, false, false, [Span(0, 5), Span(6, 11), Span(11, 12), Span(13, 14), Span(15, 16), Span(17, 23)])
  {
    TwoScan16(h);
    assert Scan(h, 17) == Scanner(17, false, false, [Span(0, 5), Span(6, 11), Span(11, 12), Span(13, 14), Span(15, 16)]);
    assert Scan(h, 18) == Scanner(17, false, false, [Span(0, 5), Span(6, 11), Span(11, 12), Span(13, 14), Span(15, 16)]);
    assert Scan(h, 19) == Scanner(17, false, false, [Span(0, 5), Span(6, 11), Span(11, 12), Span(13, 14), Span(15, 16)]);
    assert Scan(h, 20) == Scanner(17, false, false, [Span(0, 5), Span(6, 11), Span(11, 12), Span(13, 14), Span(15, 16)]);
    assert Scan(h, 21) == Scanner(17, false, false, [Span(0, 5), Span(6, 11), Span(11, 12), Span(13, 14), Span(15, 16)]);
    assert Scan(h, 22) == Scanner(17, false, false, [Span(0, 5), Span(6, 11), Span(11, 12), Span(13, 14), Span(15, 16)]);
    assert Scan(h, 23) == Scanner(17, false, false, [Span(0, 5), Span(6, 11), Span(11, 12), Span(13, 14), Span(15, 16)]);
  }
  lemma TwoScan32(h: string)
    requires TwoChars(h)
    ensures Scan(h, 32) == Scanner(24, false, false, [Span(0, 5), Span(6, 11), Span(11, 12), Span(13, 14), Span(15, 16), Span(17, 23)])
  {
    TwoScan24(h);
    assert Scan(h, 25) == Scanner(24, false, false, [Span(0, 5), Span(6, 11), Span(11, 12), Span(13, 14), Span(15, 16), Span(17, 23)]);
    assert Scan(h, 26) == Scanner(24, false, false, [Span(0, 5), Span(6, 11), Span(11, 12), Span(13, 14), Span(15, 16), Span(17, 23)]);
    assert Scan(h, 27) == Scanner(24, false, false, [Span(0, 5), Span(6, 11), Span(11, 12), Span(13, 14), Span(15, 16), Span(17, 23)]);
    assert Scan(h, 28) == Scanner(24, false, false, [Span(0, 5), Span(6, 11), Span(11, 12), Span(13, 14), Span(15, 16), Span(17, 23)]);
    assert Scan(h, 29) == Scanner(24, false, false, [Span(0, 5), Span(6, 11), Span(11, 12), Span(13, 14), Span(15, 16), Span(17, 23)]);
    assert Scan(h, 30) == Scanner(24, false, false, [Span(0, 5), Span(6, 11), Span(11, 12), Span(13, 14), Span(15, 16), Span(17, 23)]);
    assert Scan(h, 31) == Scanner(24, false, false, [Span(0, 5), Span(6, 11), Span(11, 12), Span(13, 14), Span(15, 16), Span(17, 23)]);
  }
  lemma TwoScan36(h: string)
    requires TwoChars(h)
    ensures Scan(h, 36) == Scanner(36, false, false, [Span(0, 5), Span(6, 11), Span(11, 12), Span(13, 14), Span(15, 16), Span(17, 23), Span(24, 32), Span(32, 33), Span(34, 35)])
  {
    TwoScan32(h);
    assert Scan(h, 33) == Scanner(33, false, false, [Span(0, 5), Span(6, 11), Span(11, 12), Span(13, 14), Span(15, 16), Span(17, 23), Span(24, 32), Span(32, 33)]);
    assert Scan(h, 34) == Scanner(34, false, true, [Span(0, 5), Span(6, 11), Span(11, 12), Span(13, 14), Span(15, 16), Span(17, 23), Span(24, 32), Span(32, 33)]);
    assert Scan(h, 35) == Scanner(34, false, true, [Span(0, 5), Span(6, 11), Span(11, 12), Span(13, 14), Span(15, 16), Span(17, 23), Span(24, 32), Span(32, 33)]);
  }
  lemma TwoItems(h: string)
    requires TwoChars(h)
    ensures Tokenize(h) == ["Basic", "realm", "=", "x", ",", "Bearer", "resource", "=", "y"]
  {
    TwoScan36(h);
    assert TokenSpans(h) == [Span(0, 5), Span(6, 11), Span(11, 12), Span(13, 14), Span(15, 16), Span(17, 23), Span(24, 32), Span(32, 33), Span(34, 35)];
    assert h[0..5] == "Basic";
    assert h[6..11] == "realm";
    assert h[11..12] == "=";
    assert h[13..14] == "x";
    assert h[15..16] == ",";
    assert h[17..23] == "Bearer";
    assert h[24..32] == "resource";
    assert h[32..33] == "=";
    assert h[34..35] == "y";
  }


  /** Two challenges in one header are refused. */
  lemma TwoParse(h: string)
    requires TwoChars(h)
    ensures ParseHeader(h) == Err(InvalidHeader)
  {
    TwoItems(h);
    var ps1, ps2 := [Param("realm", "x")], [Param("resource", "y")];
    SecondChallengeRejected("Basic", ps1, "Bearer", ps2);
    assert ChallengeItems("Basic", ps1) + [","] + ChallengeItems("Bearer", ps2)
        == ["Basic", "realm", "=", "x", ",", "Bearer", "resource", "=", "y"];
    assert !IsWhitespace(h[0]);
  }

  lemma TwoLiteralHead()
    ensures var h := "Basic realm=\"x\", Bearer resource=\"y\""; |h| == 36 && h[0] == 'B' && h[1] == 'a' && h[2] == 's' && h[3] == 'i' && h[4] == 'c' && h[5] == ' ' && h[6] == 'r' && h[7] == 'e' && h[8] == 'a' && h[9] == 'l' && h[10] == 'm' && h[11] == '=' && h[12] == '"' && h[13] == 'x' && h[14] == '"' && h[15] == ',' && h[16] == ' '
  {
    var a, b := "Basic realm=\"x\", ", "Bearer resource=\"y\"";
    assert a[0] == 'B' && a[1] == 'a' && a[2] == 's' && a[3] == 'i' && a[4] == 'c' && a[5] == ' ' && a[6] == 'r' && a[7] == 'e' && a[8] == 'a';
    assert a[9] == 'l' && a[10] == 'm' && a[11] == '=' && a[12] == '"' && a[13] == 'x' && a[14] == '"' && a[15] == ',' && a[16] == ' ';
    assert "Basic realm=\"x\", Bearer resource=\"y\"" == a + b;
  }

  lemma TwoLiteralTail()
    ensures var h := "Basic realm=\"x\", Bearer resource=\"y\""; |h| == 36 && h[17] == 'B' && h[18] == 'e' && h[19] == 'a' && h[20] == 'r' && h[21] == 'e' && h[22] == 'r' && h[23] == ' ' && h[24] == 'r' && h[25] == 'e' && h[26] == 's' && h[27] == 'o' && h[28] == 'u' && h[29] == 'r' && h[30] == 'c' && h[31] == 'e' && h[32] == '=' && h[33] == '"' && h[34] == 'y' && h[35] == '"'
  {
    var a, b := "Basic realm=\"x\", ", "Bearer resource=\"y\"";
    assert b[0] == 'B' && b[1] == 'e' && b[2] == 'a' && b[3] == 'r' && b[4] == 'e' && b[5] == 'r' && b[6] == ' ' && b[7] == 'r' && b[8] == 'e' && b[9] == 's';
    assert b[10] == 'o' && b[11] == 'u' && b[12] == 'r' && b[13] == 'c' && b[14] == 'e' && b[15] == '=' && b[16] == '"' && b[17] == 'y' && b[18] == '"';
    assert "Basic realm=\"x\", Bearer resource=\"y\"" == a + b;
  }

  lemma TwoLiteral()
    ensures TwoChars("Basic realm=\"x\", Bearer resource=\"y\"")
  {
    TwoLiteralHead();
    TwoLiteralTail();
  }

  lemma TwoExample()
    ensures ParseHeader("Basic realm=\"x\", Bearer resource=\"y\"") == Err(InvalidHeader)
  {
    TwoLiteral();
    TwoParse("Basic realm=\"x\", Bearer resource=\"y\"");
  }
}
