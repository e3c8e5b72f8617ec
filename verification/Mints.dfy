/** Base-58 addresses: every mint has one spelling, and what references say key by key. */
module Mints {

  import opened Outcomes
  import opened AbiWords
  import opened Decimals
  import opened JsonDocuments
  import opened Domain
  import opened Identity

  // ---------------------------------------------------------------------------------
  // Digits
  // ---------------------------------------------------------------------------------

  /** The digits: the decimal ones without the zero, the capitals without I and O, the small letters without l. */
  function DigitIn58(c: char): Option<nat> {
    if '1' <= c <= '9' then Some(c as int - '1' as int)
    else if 'A' <= c <= 'H' then Some(9 + (c as int - 'A' as int))
    else if 'J' <= c <= 'N' then Some(17 + (c as int - 'J' as int))
    else if 'P' <= c <= 'Z' then Some(22 + (c as int - 'P' as int))
    else if 'a' <= c <= 'k' then Some(33 + (c as int - 'a' as int))
    else if 'm' <= c <= 'z' then Some(44 + (c as int - 'm' as int))
    else None
  }

  lemma {:induction false} IndexFinds(s: string, c: char)
    ensures match IndexIn(s, c)
            case Some(i) => i < |s| && s[i] == c
            case None => c !in s
  {
    if s != "" && s[|s| - 1] != c {
      IndexFinds(s[..|s| - 1], c);
      assert s == s[..|s| - 1] + [s[|s| - 1]];
    }
  }

  /** The characters run through the ranges in order. */
  lemma AlphabetRuns(i: nat)
    requires i < 58
    ensures |ALPHABET| == 58
    ensures ALPHABET[i] == if i < 9 then "123456789"[i] else if i < 17 then "ABCDEFGH"[i - 9] else if i < 22 then "JKLMN"[i - 17]
                           else if i < 33 then "PQRSTUVWXYZ"[i - 22] else if i < 44 then "abcdefghijk"[i - 33]
                           else "mnopqrstuvwxyz"[i - 44]
  {
  }

  lemma CapitalsInOrder(i: nat)
    ensures i < 8 ==> "ABCDEFGH"[i] as int == 'A' as int + i
    ensures i < 5 ==> "JKLMN"[i] as int == 'J' as int + i
    ensures i < 11 ==> "PQRSTUVWXYZ"[i] as int == 'P' as int + i
  {
  }

  lemma OthersInOrder(i: nat)
    ensures i < 9 ==> "123456789"[i] as int == '1' as int + i
    ensures i < 11 ==> "abcdefghijk"[i] as int == 'a' as int + i
    ensures i < 14 ==> "mnopqrstuvwxyz"[i] as int == 'm' as int + i
  {
  }

  lemma AlphabetInOrder(i: nat, c: char)
    requires i < |ALPHABET| && c == ALPHABET[i]
    ensures DigitIn58(c) == Some(i)
  {
    AlphabetRuns(i);
    if i < 9 { OthersInOrder(i); }
    else if i < 17 { CapitalsInOrder(i - 9); }
    else if i < 22 { CapitalsInOrder(i - 17); }
    else if i < 33 { CapitalsInOrder(i - 22); }
    else if i < 44 { OthersInOrder(i - 33); }
    else { OthersInOrder(i - 44); }
  }

  lemma AlphabetIsComplete(c: char)
    requires DigitIn58(c).Some?
    ensures DigitIn58(c).value < |ALPHABET| && ALPHABET[DigitIn58(c).value] == c
  {
    AlphabetRuns(DigitIn58(c).value);
  }

  lemma DigitsExactly(c: char)
    ensures IndexIn(ALPHABET, c) == DigitIn58(c)
  {
    IndexFinds(ALPHABET, c);
    match IndexIn(ALPHABET, c)
    case Some(i) => AlphabetInOrder(i, c);
    case None => if DigitIn58(c).Some? { AlphabetIsComplete(c); }
  }

  /** A text denotes a number by its digits, the first one most significant. */
  lemma NumberExactly(text: string, c: char, n: nat)
    ensures Number58("") == Some(0)
    ensures Number58(text + [c]) == Some(n) <==>
              && Number58(text).Some? && DigitIn58(c).Some? && n == Number58(text).value * 58 + DigitIn58(c).value
  {
    DigitsExactly(c);
    var t := text + [c];
    assert t[..|t| - 1] == text && t[|t| - 1] == c;
  }

  // ---------------------------------------------------------------------------------
  // Bytes
  // ---------------------------------------------------------------------------------

  /** The shortest bytes of a number, the first one most significant: they spell it and begin with no zero. */
  lemma {:induction false} MinimalExactly(n: nat)
    ensures BigEndian(Minimal(n), 0, |Minimal(n)|) == n
    ensures Minimal(n) != [] ==> Minimal(n)[0] != 0
    ensures n == 0 <==> Minimal(n) == []
    decreases n
  {
    if n != 0 {
      MinimalExactly(n / 256);
      var init := Minimal(n / 256);
      BigEndianOfPrefix(init, Minimal(n), |init|);
    }
  }

  lemma {:induction false} BigEndianOfPrefix(data: seq<byte>, more: seq<byte>, k: nat)
    requires k <= |data| && k <= |more| && forall i :: 0 <= i < k ==> data[i] == more[i]
    ensures BigEndian(data, 0, k) == BigEndian(more, 0, k)
    decreases k
  {
    if k != 0 { BigEndianOfPrefix(data, more, k - 1); }
  }

  lemma {:induction false} ZerosOf(n: nat, data: seq<byte>)
    requires n <= |data|
    ensures Zeros(n) == data[..n] <==> forall i :: 0 <= i < n ==> data[i] == 0
    decreases n
  {
    if n != 0 {
      ZerosOf(n - 1, data);
      assert data[..n] == data[..n - 1] + [data[n - 1]];
      if Zeros(n) == data[..n] {
        assert Zeros(n)[..n - 1] == Zeros(n - 1) && data[..n][..n - 1] == data[..n - 1] && Zeros(n)[n - 1] == 0;
      }
    }
  }

  // ---------------------------------------------------------------------------------
  // One spelling
  // ---------------------------------------------------------------------------------

  lemma {:induction false} ZerosThenMinimal(z: nat, n: nat, y: nat, m: nat)
    requires Zeros(z) + Minimal(n) == Zeros(y) + Minimal(m)
    ensures z == y && n == m
    decreases z + y
  {
    MinimalExactly(n);
    MinimalExactly(m);
    var s, t := Zeros(z) + Minimal(n), Zeros(y) + Minimal(m);
    if z == 0 && y == 0 {
      assert s == Minimal(n) && t == Minimal(m);
    } else if z == 0 || y == 0 {
      FirstZero(z, n);
      FirstZero(y, m);
    } else {
      RestOfZeros(z, n);
      RestOfZeros(y, m);
      ZerosThenMinimal(z - 1, n, y - 1, m);
    }
  }

  lemma {:induction false} FirstZero(z: nat, n: nat)
    ensures var s := Zeros(z) + Minimal(n); s != [] && s[0] == 0 <==> 0 < z
    decreases z
  {
    MinimalExactly(n);
    if z != 0 { ZerosOf(z, Zeros(z)); assert Zeros(z)[..z] == Zeros(z); }
  }

  lemma {:induction false} RestOfZeros(z: nat, n: nat)
    requires 0 < z
    ensures (Zeros(z) + Minimal(n))[1..] == Zeros(z - 1) + Minimal(n)
    decreases z
  {
    ZerosTail(z);
  }

  lemma {:induction false} ZerosTail(z: nat)
    requires 0 < z
    ensures Zeros(z)[1..] == Zeros(z - 1)
    decreases z
  {
    if 1 < z {
      ZerosTail(z - 1);
      assert Zeros(z)[1..] == Zeros(z - 1)[1..] + [0];
    }
  }

  lemma {:induction false} OnesOfPrefix(s: string, k: nat)
    requires k <= |s|
    ensures LeadingOnes(s) <= |s|
    ensures LeadingOnes(s[..k]) == if LeadingOnes(s) < k then LeadingOnes(s) else k
    decreases |s|
  {
    if s != "" && s[0] == '1' {
      if k == 0 {
        OnesOfPrefix(s[1..], 0);
      } else {
        OnesOfPrefix(s[1..], k - 1);
        assert s[..k][1..] == s[1..][..k - 1];
      }
    }
  }

  /** Only ones denote zero. */
  lemma {:induction false} ZeroIsOnes(s: string)
    requires Number58(s).Some?
    ensures Number58(s).value == 0 <==> LeadingOnes(s) == |s|
    decreases |s|
  {
    if s != "" {
      var init, last := s[..|s| - 1], s[|s| - 1];
      ZeroIsOnes(init);
      OnesOfPrefix(s, |s| - 1);
      DigitsExactly(last);
      OnesWithLast(init, last);
      assert init + [last] == s;
    }
  }

  lemma {:induction false} OnesWithLast(init: string, last: char)
    ensures LeadingOnes(init + [last]) == |init| + 1 <==> LeadingOnes(init) == |init| && last == '1'
    ensures LeadingOnes(init) <= |init|
    decreases |init|
  {
    if init != "" {
      OnesWithLast(init[1..], last);
      assert (init + [last])[1..] == init[1..] + [last];
    } else {
      assert (init + [last])[1..] == "";
    }
  }

  /** Texts with as many leading ones that denote the same number are the same. */
  lemma {:induction false} SameNumberSameText(s: string, t: string)
    requires Number58(s).Some? && Number58(s) == Number58(t) && LeadingOnes(s) == LeadingOnes(t)
    ensures s == t
    decreases |s|
  {
    ZeroIsOnes(s);
    ZeroIsOnes(t);
    if Number58(s).value == 0 {
      AllOnes(s);
      AllOnes(t);
    } else {
      var a, c, b, e := s[..|s| - 1], s[|s| - 1], t[..|t| - 1], t[|t| - 1];
      DigitsExactly(c);
      DigitsExactly(e);
      LastDigit(Number58(a).value, DigitIn58(c).value, Number58(b).value, DigitIn58(e).value);
      OnesOfPrefix(s, |s| - 1);
      OnesOfPrefix(t, |t| - 1);
      SameNumberSameText(a, b);
      AlphabetIsComplete(c);
      AlphabetIsComplete(e);
      assert s == a + [c] && t == b + [e];
    }
  }

  lemma LastDigit(n: nat, c: nat, m: nat, e: nat)
    requires c < 58 && e < 58 && n * 58 + c == m * 58 + e
    ensures n == m && c == e
  {
  }

  lemma {:induction false} AllOnes(s: string)
    requires LeadingOnes(s) == |s|
    ensures forall i :: 0 <= i < |s| ==> s[i] == '1'
    decreases |s|
  {
    if s != "" {
      AllOnes(s[1..]);
      assert s == [s[0]] + s[1..];
    }
  }

  /** Two texts that decode to the same bytes are the same text: a mint has one spelling. */
  lemma OneSpelling(s: string, t: string)
    requires Decoded58(s).Some? && Decoded58(s) == Decoded58(t)
    ensures s == t
  {
    ZerosThenMinimal(LeadingOnes(s), Number58(s).value, LeadingOnes(t), Number58(t).value);
    SameNumberSameText(s, t);
  }

  // ---------------------------------------------------------------------------------
  // References
  // ---------------------------------------------------------------------------------

  /** Forty lower-case hexadecimal digits that are not all zero, behind a prefix; a final newline is let through. */
  ghost predicate IsAddressText(s: string) {
    exists a: string ::
      && |a| == 40 && (s == "0x" + a || s == "0x" + a + "\n")
      && (forall c <- a :: '0' <= c <= '9' || 'a' <= c <= 'f') && exists c <- a :: c != '0'
  }

  lemma HexAddressIs(s: string, a: string)
    requires s == "0x" + a && |a| == 40
    ensures IsHexAddress(s) <==> (forall c <- a :: '0' <= c <= '9' || 'a' <= c <= 'f') && exists c <- a :: c != '0'
  {
    assert s[..2] == "0x" && forall i :: 0 <= i < 40 ==> s[i + 2] == a[i];
    if IsHexAddress(s) {
      forall c | c in a ensures '0' <= c <= '9' || 'a' <= c <= 'f' {
        var i :| 0 <= i < 40 && a[i] == c;
        assert IsHexDigit(s[i + 2]);
      }
      var k :| 2 <= k < 42 && s[k] != '0';
      assert a[k - 2] in a;
    }
    if (forall c <- a :: '0' <= c <= '9' || 'a' <= c <= 'f') && exists c <- a :: c != '0' {
      forall i | 2 <= i < 42 ensures IsHexDigit(s[i]) {
        assert a[i - 2] in a;
      }
      var c :| c in a && c != '0';
      var k :| 0 <= k < 40 && a[k] == c;
      assert s[k + 2] != '0';
    }
  }

  lemma AddressExactly(s: string)
    ensures IsEvmAddress(s) <==> IsAddressText(s)
  {
    if IsHexAddress(s) {
      AddressOf(s, s[2..]);
    } else if IsHexAddress(Chopped(s)) {
      AddressOf(Chopped(s), Chopped(s)[2..]);
      assert s == Chopped(s) + "\n";
    }
    if IsAddressText(s) {
      var a: string :|
        && |a| == 40 && (s == "0x" + a || s == "0x" + a + "\n")
        && (forall c <- a :: '0' <= c <= '9' || 'a' <= c <= 'f') && exists c <- a :: c != '0';
      HexAddressIs("0x" + a, a);
      assert s == "0x" + a + "\n" ==> Chopped(s) == "0x" + a;
    }
  }

  lemma AddressOf(s: string, a: string)
    requires IsHexAddress(s) && a == s[2..]
    ensures s == "0x" + a && |a| == 40
    ensures (forall c <- a :: '0' <= c <= '9' || 'a' <= c <= 'f') && exists c <- a :: c != '0'
  {
    assert s == s[..2] + s[2..];
    HexAddressIs(s, a);
  }

  /** A reference to a contract of a chain. */
  lemma EvmExactly(v: Json, chainId: int, contract: string)
    ensures ReadRef(v) == Ok(Evm(chainId, contract)) <==>
              && v == Object(map["namespace" := Text("evm"), "chain_id" := Integer(chainId),
                                 "contract_address" := Text(contract)])
              && 1 <= chainId <= 9_223_372_036_854_775_772 && IsAddressText(contract)
  {
    AddressExactly(contract);
    ReadRefIsFaithful(v);
    if IsRef(Evm(chainId, contract)) { IdentityRoundTrip(Evm(chainId, contract)); }
  }

  /** A reference to a mint of a cluster: 32 bytes that are not all zero, and the program that owns it. */
  lemma SolanaExactly(v: Json, cluster: Cluster, mint: string, program: TokenProgram)
    ensures ReadRef(v) == Ok(Solana(cluster, mint, program)) <==>
              && v == Object(map[
                   "namespace" := Text("solana"),
                   "cluster" := Text(match cluster
                                     case MainnetBeta => "mainnet-beta"
                                     case Devnet => "devnet"
                                     case Testnet => "testnet"),
                   "mint_address" := Text(mint),
                   "token_program" := Text(match program case SplToken => "SPL_TOKEN" case Token2022 => "TOKEN_2022")])
              && 32 <= |mint| <= 44 && Decoded58(mint).Some? && |Decoded58(mint).value| == 32
              && exists i :: 0 <= i < 32 && Decoded58(mint).value[i] != 0
  {
    if Decoded58(mint).Some? && |Decoded58(mint).value| == 32 {
      ZerosOf(32, Decoded58(mint).value);
      assert Decoded58(mint).value[..32] == Decoded58(mint).value;
    }
    ReadRefIsFaithful(v);
    if IsMint(mint) { IdentityRoundTrip(Solana(cluster, mint, program)); }
  }
}
