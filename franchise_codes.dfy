/** The sequential franchise-code generator of the provisioning utilities. */
module FranchiseCodes {
  import opened Common
  import opened Strings

  /** "CH" for a channel partner, "FR" for every other role. */
  function CodePrefix(role: PartnerType): (p: string)
    ensures |p| == 2
    ensures p == "CH" <==> role == ChannelType
    ensures role == FranchiseType ==> p == "FR"
  {
    if role == ChannelType then "CH" else "FR"
  }

  /** The codes the lookup pattern `^<prefix>\d+$` matches. */
  predicate MatchesCode(code: string, prefix: string) {
    |code| > |prefix| && code[..|prefix|] == prefix && AllDigits(code[|prefix|..])
  }

  /** The number a matching code carries: the prefix removed, the rest read in base 10. */
  function CodeNumber(code: string, prefix: string): (n: nat)
    requires MatchesCode(code, prefix)
    ensures n < Pow10(|code| - |prefix|)
  {
    ParseDigits(code[|prefix|..])
  }

  /** The matching code a descending sort on `franchiseCode` puts first: a matching code
      that no matching code exceeds in string order, or none when no code matches. */
  function GreatestMatching(codes: seq<string>, prefix: string): (r: Option<string>)
    ensures r.None? <==> forall i :: 0 <= i < |codes| ==> !MatchesCode(codes[i], prefix)
    ensures r.Some? ==> r.value in codes && MatchesCode(r.value, prefix)
    ensures r.Some? ==> forall i :: 0 <= i < |codes| && MatchesCode(codes[i], prefix) ==>
                          !LexLess(r.value, codes[i])
  {
    if codes == [] then None
    else
      var rest := GreatestMatching(codes[1..], prefix);
      var head := codes[0];
      if !MatchesCode(head, prefix) then
        assert forall i :: 1 <= i < |codes| ==> codes[i] == codes[1..][i - 1];
        rest
      else if rest.None? then
        LexLessIrreflexive(head);
        assert forall i :: 1 <= i < |codes| ==> codes[i] == codes[1..][i - 1];
        Some(head)
      else if LexLess(rest.value, head) then
        assert forall i :: 0 <= i < |codes| && MatchesCode(codes[i], prefix) ==> !LexLess(head, codes[i]) by {
          forall i | 0 <= i < |codes| && MatchesCode(codes[i], prefix)
            ensures !LexLess(head, codes[i])
          {
            if i == 0 {
              LexLessIrreflexive(head);
            } else {
              assert codes[i] == codes[1..][i - 1];
              if LexLess(head, codes[i]) {
                LexLessTransitive(rest.value, head, codes[i]);
              }
            }
          }
        }
        Some(head)
      else
        assert forall i :: 1 <= i < |codes| ==> codes[i] == codes[1..][i - 1];
        rest
  }

  /** The number after the greatest matching code's, or 1 when no code matches. */
  function NextNumber(role: PartnerType, codes: seq<string>): (n: nat)
    ensures n >= 1
  {
    var prefix := CodePrefix(role);
    match GreatestMatching(codes, prefix)
    case None => 1
    case Some(last) => CodeNumber(last, prefix) + 1
  }

  /** The prefix followed by the number, left-padded with zeros to at least four digits. */
  function FormatCode(prefix: string, n: nat): (code: string)
    ensures MatchesCode(code, prefix)
    ensures |code| >= |prefix| + 4
  {
    var digits := PadStart(ToDigits(n), 4, '0');
    var code := prefix + digits;
    assert code[..|prefix|] == prefix && code[|prefix|..] == digits;
    code
  }

  /** `generateFranchiseCode(role)` over the codes currently stored. */
  function GenerateFranchiseCode(role: PartnerType, codes: seq<string>): (code: string)
    ensures |code| >= 6
  {
    FormatCode(CodePrefix(role), NextNumber(role, codes))
  }

  /** Every generated code is matched by the lookup pattern of its own prefix, so the next
      generation for that role takes it into account. */
  lemma GeneratedCodeMatches(role: PartnerType, codes: seq<string>)
    ensures MatchesCode(GenerateFranchiseCode(role, codes), CodePrefix(role))
  {
    var p := CodePrefix(role);
    var n := NextNumber(role, codes);
    assert GenerateFranchiseCode(role, codes) == FormatCode(p, n);
  }

  /** Reading a formatted code back yields its number. */
  lemma FormatCodeRoundTrip(prefix: string, n: nat)
    ensures CodeNumber(FormatCode(prefix, n), prefix) == n
  {
    var digits := ToDigits(n);
    var padded := PadStart(digits, 4, '0');
    var zeros := padded[..|padded| - |digits|];
    assert padded == zeros + digits;
    assert AllZeros(zeros);
    ParseLeadingZeros(zeros, digits);
    ParseToDigits(n);
    assert (prefix + padded)[|prefix|..] == padded;
  }

  /** Below 10000 the code has exactly four digits after the prefix. */
  lemma FormatCodeWidth(prefix: string, n: nat)
    requires n < 10000
    ensures |FormatCode(prefix, n)| == |prefix| + 4
  {
    assert Pow10(4) == 10000;
    ToDigitsLength(n, 4);
  }

  /** With no code of the prefix stored, the first code is number one. */
  lemma FirstCode(role: PartnerType, codes: seq<string>)
    requires forall i :: 0 <= i < |codes| ==> !MatchesCode(codes[i], CodePrefix(role))
    ensures GenerateFranchiseCode(role, codes) == CodePrefix(role) + "0001"
  {
    assert ToDigits(1) == "1";
  }

  /** Every further code carries the greatest stored number plus one. */
  lemma NextCodeFollowsGreatest(role: PartnerType, codes: seq<string>)
    requires GreatestMatching(codes, CodePrefix(role)).Some?
    ensures CodeNumber(GenerateFranchiseCode(role, codes), CodePrefix(role)) ==
            CodeNumber(GreatestMatching(codes, CodePrefix(role)).value, CodePrefix(role)) + 1
  {
    FormatCodeRoundTrip(CodePrefix(role), NextNumber(role, codes));
  }

  /** A matching code with four digits after the prefix. */
  predicate FourDigitCode(code: string, prefix: string) {
    MatchesCode(code, prefix) && |code| == |prefix| + 4
  }

  /** While every stored code of the prefix has four digits, string order is number
      order, so the new number exceeds every stored one. */
  lemma {:induction false} NextNumberExceeds(role: PartnerType, codes: seq<string>)
    requires forall i :: 0 <= i < |codes| && MatchesCode(codes[i], CodePrefix(role)) ==>
               FourDigitCode(codes[i], CodePrefix(role))
    ensures forall i :: 0 <= i < |codes| && MatchesCode(codes[i], CodePrefix(role)) ==>
              CodeNumber(codes[i], CodePrefix(role)) < NextNumber(role, codes)
  {
    var p := CodePrefix(role);
    var g := GreatestMatching(codes, p);
    forall i | 0 <= i < |codes| && MatchesCode(codes[i], p)
      ensures CodeNumber(codes[i], p) < NextNumber(role, codes)
    {
      var c := codes[i];
      var last := g.value;
      assert last in codes;
      if c != last {
        LexLessTotal(c, last);
        var sc, sl := c[|p|..], last[|p|..];
        assert c == p + sc && last == p + sl;
        LexLessCommonPrefix(p, sc, sl);
        LexLessDigits(sc, sl);
      }
    }
  }

  /** The generator yields a fresh code as long as every stored code of the prefix has
      four digits. */
  lemma FreshCode(role: PartnerType, codes: seq<string>)
    requires forall i :: 0 <= i < |codes| && MatchesCode(codes[i], CodePrefix(role)) ==>
               FourDigitCode(codes[i], CodePrefix(role))
    ensures GenerateFranchiseCode(role, codes) !in codes
  {
    var p := CodePrefix(role);
    var code := GenerateFranchiseCode(role, codes);
    NextNumberExceeds(role, codes);
    FormatCodeRoundTrip(p, NextNumber(role, codes));
  }

  /** Past 9999 string order and number order part ways: "FR10000" sorts below "FR9999",
      so once "FR10000" exists the generator hands it out again, and the code's unique
      index rejects the franchise. */
  lemma DuplicatePast9999()
    ensures GenerateFranchiseCode(FranchiseType, ["FR9999"]) == "FR10000"
    ensures GenerateFranchiseCode(FranchiseType, ["FR9999", "FR10000"]) == "FR10000"
  {
    var c1: string, c2: string := "FR9999", "FR10000";
    var one: seq<string>, two: seq<string> := [c1], [c1, c2];
    assert c1[..2] == "FR" && c1[2..] == "9999" && MatchesCode(c1, "FR");
    assert c2[..2] == "FR" && c2[2..] == "10000" && MatchesCode(c2, "FR");
    assert two[1..] == [c2];
    assert GreatestMatching([c1], "FR") == Some(c1);
    assert GreatestMatching([c2], "FR") == Some(c2);
    assert LexLess(c2, c1);
    assert GreatestMatching([c1, c2], "FR") == Some(c1);
    After9999([c1]);
    After9999([c1, c2]);
  }

  /** Whenever "FR9999" sorts first, the next franchise code is "FR10000". */
  lemma After9999(codes: seq<string>)
    requires GreatestMatching(codes, "FR") == Some("FR9999")
    ensures GenerateFranchiseCode(FranchiseType, codes) == "FR10000"
  {
    assert "FR9999"[2..] == "9999";
    NinesParse();
    assert NextNumber(FranchiseType, codes) == 10000;
    TenThousandDigits();
    assert PadStart("10000", 4, '0') == "10000";
  }

  lemma NinesParse()
    ensures AllDigits("9999") && ParseDigits("9999") == 9999
  {
    assert "9999"[..3] == "999" && "999"[..2] == "99" && "99"[..1] == "9" && "9"[..0] == "";
  }

  lemma TenThousandDigits()
    ensures ToDigits(10000) == "10000"
  {
    assert DigitChar(1) == '1' && DigitChar(0) == '0';
  }
}
