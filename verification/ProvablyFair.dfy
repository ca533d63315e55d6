/** Seeds, rolls and their verification (src/modules/provably-fair/provably-fair.service.ts).

    SHA-256 is the parameter `sha`; nothing is assumed of it but the shape of its digests. */
module ProvablyFair {
  import opened Sequences
  import CaseLottery

  /** A hexadecimal digest, most significant digit first. */
  type Digest = d: seq<nat> | |d| == 64 && forall i :: 0 <= i < |d| ==> d[i] < 16 witness seq(64, _ => 0)

  type Sha = string -> Digest

  const MIN_CLIENT_SEED := 32

  datatype Game = Game(user: nat, clientSeed: string, serverSeed: string, publicHash: Digest, used: bool)

  /** Game ids are positions. */
  type Games = seq<Game>

  datatype Verdict = Verified(word: nat) | NotFound | InvalidClientSeed | InvalidServerSeed | HashMismatch

  // ----- The roll -----

  function Power16(n: nat): (p: nat)
    ensures p > 0
  {
    if n == 0 then 1 else 16 * Power16(n - 1)
  }

  /** `parseInt(digits, 16)` */
  function ParseHex(digits: seq<nat>): (value: nat)
  {
    if digits == [] then 0 else 16 * ParseHex(digits[..|digits| - 1]) + digits[|digits| - 1]
  }

  ghost predicate HexDigits(digits: seq<nat>)
  {
    forall i :: 0 <= i < |digits| ==> digits[i] < 16
  }

  lemma {:induction false} ParseHexRange(digits: seq<nat>)
    requires HexDigits(digits)
    ensures ParseHex(digits) < Power16(|digits|)
    ensures ParseHex(digits) == Power16(|digits|) - 1 <==> forall i :: 0 <= i < |digits| ==> digits[i] == 15
  {
    if digits != [] {
      ParseHexRange(digits[..|digits| - 1]);
    }
  }

  /** Distinct digit strings of one length are distinct words. */
  lemma {:induction false} ParseHexInjective(a: seq<nat>, b: seq<nat>)
    requires HexDigits(a) && HexDigits(b) && |a| == |b|
    ensures ParseHex(a) == ParseHex(b) <==> a == b
  {
    if a != [] {
      var n := |a| - 1;
      ParseHexInjective(a[..n], b[..n]);
      assert a == a[..n] + [a[n]] && b == b[..n] + [b[n]];
    }
  }

  /** Digits are read from the most significant on: the first place where two strings differ
      decides which word is larger. */
  lemma {:induction false} FirstDigitDecides(front: seq<nat>, x: nat, y: nat, a: seq<nat>, b: seq<nat>)
    requires HexDigits(front) && x < y < 16 && HexDigits(a) && HexDigits(b) && |a| == |b|
    ensures ParseHex(front + [x] + a) < ParseHex(front + [y] + b)
    decreases |a|
  {
    if a == [] {
      assert front + [x] + a == front + [x] && front + [y] + b == front + [y];
      assert (front + [x])[..|front|] == front && (front + [y])[..|front|] == front;
    } else {
      var n := |a| - 1;
      FirstDigitDecides(front, x, y, a[..n], b[..n]);
      assert (front + [x] + a)[..|front| + 1 + n] == front + [x] + a[..n];
      assert (front + [y] + b)[..|front| + 1 + n] == front + [y] + b[..n];
    }
  }

  /** The 32-bit word a roll divides by 0xffffffff. */
  function RollWord(sha: Sha, clientSeed: string, serverSeed: string): (word: nat)
  {
    ParseHex(sha(clientSeed + serverSeed)[..8])
  }

  /** A roll is a fraction from 0 to 1; it is 1 itself exactly when the digest starts with
      eight digits f. */
  lemma RollInUnitInterval(sha: Sha, clientSeed: string, serverSeed: string)
    ensures var word, digits := RollWord(sha, clientSeed, serverSeed), sha(clientSeed + serverSeed)[..8];
            && word <= CaseLottery.PAID_DENOMINATOR
            && (word == CaseLottery.PAID_DENOMINATOR <==> forall i :: 0 <= i < 8 ==> digits[i] == 15)
  {
    ParseHexRange(sha(clientSeed + serverSeed)[..8]);
    assert Power16(4) == 0x1_0000;
    assert Power16(8) == 0x1_0000_0000;
  }

  // ----- Verification -----

  function Verify(sha: Sha, games: Games, id: nat, clientSeed: string, serverSeed: string): (verdict: Verdict)
  {
    if id >= |games| then NotFound
    else if clientSeed != games[id].clientSeed then InvalidClientSeed
    else if serverSeed != games[id].serverSeed then InvalidServerSeed
    else if sha(serverSeed) != games[id].publicHash then HashMismatch
    else Verified(RollWord(sha, clientSeed, serverSeed))
  }

  /** Every published hash is the hash of its server seed. */
  ghost predicate Committed(sha: Sha, games: Games)
  {
    forall i :: 0 <= i < |games| ==> games[i].publicHash == sha(games[i].serverSeed)
  }

  /** Verification accepts exactly the stored pair of seeds, and then reproduces the roll. */
  lemma VerifyAcceptsStoredSeeds(sha: Sha, games: Games, id: nat, clientSeed: string, serverSeed: string)
    requires Committed(sha, games)
    ensures var verdict := Verify(sha, games, id, clientSeed, serverSeed);
            && verdict != HashMismatch && (verdict == NotFound <==> id >= |games|)
            && (verdict == InvalidClientSeed <==> id < |games| && games[id].clientSeed != clientSeed)
            && (verdict.Verified? <==>
                  id < |games| && games[id].clientSeed == clientSeed && games[id].serverSeed == serverSeed)
            && (verdict.Verified? ==> verdict.word == RollWord(sha, games[id].clientSeed, games[id].serverSeed))
  {
  }

  // ----- The service over a run -----

  datatype Op = Generate(user: nat, clientSeed: string, serverSeed: string) | MarkUsed(id: nat)

  function Perform(sha: Sha, games: Games, op: Op): (after: Games)
  {
    match op
    case Generate(user, clientSeed, serverSeed) =>
      if |clientSeed| < MIN_CLIENT_SEED then games
      else games + [Game(user, clientSeed, serverSeed, sha(serverSeed), false)]
    case MarkUsed(id) => if id < |games| then games[id := games[id].(used := true)] else games
  }

  function RunOps(sha: Sha, games: Games, ops: seq<Op>): (end: Games)
    decreases |ops|
  {
    if ops == [] then games else RunOps(sha, Perform(sha, games, ops[0]), ops[1..])
  }

  /** A roll needs a client seed of 32 characters; it then appends one game, under the hash of
      its server seed. */
  lemma GenerateNeedsSeed(sha: Sha, games: Games, user: nat, clientSeed: string, serverSeed: string)
    ensures var after := Perform(sha, games, Generate(user, clientSeed, serverSeed));
            if |clientSeed| < 32 then after == games
            else after == games + [Game(user, clientSeed, serverSeed, sha(serverSeed), false)]
  {
  }

  lemma {:induction false} RunKeepsGames(sha: Sha, games: Games, ops: seq<Op>)
    requires Committed(sha, games)
    ensures var end := RunOps(sha, games, ops);
            && Committed(sha, end) && |games| <= |end|
            && forall i :: 0 <= i < |games| ==>
                 end[i].clientSeed == games[i].clientSeed && end[i].serverSeed == games[i].serverSeed
    decreases |ops|
  {
    if ops != [] {
      RunKeepsGames(sha, Perform(sha, games, ops[0]), ops[1..]);
    }
  }

  /** A round trip: whatever happens after a roll, its seeds verify to the word it used. That
      word has a winner among any paid ranges unless the digest starts with eight digits f. */
  lemma RollVerifiesLater(sha: Sha, games: Games, user: nat, clientSeed: string, serverSeed: string, ops: seq<Op>,
                          ranges: seq<CaseLottery.TicketRange>, pool: seq<CaseLottery.Row>)
    requires Committed(sha, games) && |clientSeed| >= 32 && CaseLottery.LaidOut(ranges, pool)
    ensures var end := RunOps(sha, Perform(sha, games, Generate(user, clientSeed, serverSeed)), ops);
            var verdict := Verify(sha, end, |games|, clientSeed, serverSeed);
            && verdict == Verified(RollWord(sha, clientSeed, serverSeed))
            && (CaseLottery.SelectWinner(ranges, verdict.word, CaseLottery.PAID_DENOMINATOR).Ok? <==>
                  exists i :: 0 <= i < 8 && sha(clientSeed + serverSeed)[..8][i] != 15)
  {
    RunKeepsGames(sha, Perform(sha, games, Generate(user, clientSeed, serverSeed)), ops);
    RollInUnitInterval(sha, clientSeed, serverSeed);
    CaseLottery.RollTotality(ranges, pool, RollWord(sha, clientSeed, serverSeed));
  }

  class ProvablyFairService {
    const sha: Sha
    var games: Games

    constructor (sha: Sha)
      ensures this.sha == sha && games == [] && Committed(sha, games)
    {
      this.sha, games := sha, [];
    }

    method GenerateSeed(user: nat, clientSeed: string, serverSeed: string) returns (id: Option<nat>)
      modifies this
      ensures games == Perform(sha, old(games), Generate(user, clientSeed, serverSeed))
      ensures id == if |clientSeed| < MIN_CLIENT_SEED then None else Some(|old(games)|)
    {
      if |clientSeed| < MIN_CLIENT_SEED {
        return None;
      }
      id := Some(|games|);
      games := games + [Game(user, clientSeed, serverSeed, sha(serverSeed), false)];
    }

    /** No game changes but in its flag, so every verdict stays what it was. */
    method MarkSeedAsUsed(id: nat)
      modifies this
      ensures games == Perform(sha, old(games), MarkUsed(id))
      ensures |games| == |old(games)|
      ensures forall i :: 0 <= i < |games| ==> games[i].used == (old(games)[i].used || i == id)
      ensures forall i, client, server ::
              Verify(sha, games, i, client, server) == Verify(sha, old(games), i, client, server)
    {
      if id < |games| {
        games := games[id := games[id].(used := true)];
      }
    }

    /** Over committed games the verdict is the stored seeds' alone. */
    method VerifyResult(id: nat, clientSeed: string, serverSeed: string) returns (verdict: Verdict)
      ensures verdict == Verify(sha, games, id, clientSeed, serverSeed)
      ensures Committed(sha, games) ==>
                (verdict.Verified? <==>
                   id < |games| && games[id].clientSeed == clientSeed && games[id].serverSeed == serverSeed)
    {
      if id >= |games| {
        return NotFound;
      }
      var game := games[id];
      if clientSeed != game.clientSeed {
        return InvalidClientSeed;
      }
      if serverSeed != game.serverSeed {
        return InvalidServerSeed;
      }
      if sha(serverSeed) != game.publicHash {
        return HashMismatch;
      }
      verdict := Verified(RollWord(sha, clientSeed, serverSeed));
    }
  }
}
