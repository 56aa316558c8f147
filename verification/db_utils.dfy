/** Test-data helpers: the username and email of a generated user, and the
    ranges of generated player and team-record values. Random draws are
    parameters: `draw` selects the value within the requested range. */
module DbUtils {
  import opened Common

  const UsernameMaxLength: nat := 20
  const EmailDomain := "@example.com"

  /** The characters `[a-z0-9_]` that the replacement keeps. */
  predicate Allowed(c: char) {
    ('a' <= c <= 'z') || ('0' <= c <= '9') || c == '_'
  }

  /** `slice(0, n)`: the first `n` code units, or all of a shorter string. */
  function Prefix(s: seq<int>, n: nat): (r: seq<int>)
    ensures |r| == if |s| <= n then |s| else n
    ensures r == s[..|r|]
  {
    if |s| <= n then s else s[..n]
  }

  /** `toLowerCase` on one code unit, restricted to ASCII letters. */
  function LowerUnit(u: int): (r: int)
    ensures 'A' as int <= u <= 'Z' as int ==> r == u + 32
    ensures !('A' as int <= u <= 'Z' as int) ==> r == u
  {
    if 'A' as int <= u <= 'Z' as int then u + 32 else u
  }

  /** `toLowerCase` on a string of code units, restricted to ASCII letters. */
  function ToLower(s: seq<int>): (r: seq<int>)
    ensures |r| == |s|
    ensures forall i :: 0 <= i < |s| ==> r[i] == LowerUnit(s[i])
  {
    seq(|s|, i requires 0 <= i < |s| => LowerUnit(s[i]))
  }

  /** The character a code unit stands for when it is one of `[a-z0-9_]`. */
  function AllowedUnit(u: int): (r: Option<char>)
    ensures r.Some? <==> 0 <= u < 0x80 && Allowed(u as char)
    ensures r.Some? ==> r.value as int == u
  {
    if 0 <= u < 0x80 && Allowed(u as char) then Some(u as char) else None
  }

  /** `replace(/[^a-z0-9_]/g, '_')`: the pattern has no `u` flag, so it
      matches code unit by code unit, and every unit outside the set
      (each half of a surrogate pair included) becomes an underscore. */
  function ReplaceDisallowed(s: seq<int>): (r: string)
    ensures |r| == |s|
    ensures forall i :: 0 <= i < |s| ==> Allowed(r[i])
    ensures forall i :: 0 <= i < |s| ==> (r[i] == '_' || r[i] as int == s[i])
    ensures forall i :: 0 <= i < |s| ==> (AllowedUnit(s[i]).Some? ==> r[i] as int == s[i])
  {
    seq(|s|, i requires 0 <= i < |s| => match AllowedUnit(s[i]) case Some(c) => c case None => '_')
  }

  /** The username pipeline: cut to 20 code units, lower-case, replace. */
  function Username(raw: string): (r: string)
    ensures |r| == if Utf16Length(raw) <= UsernameMaxLength then Utf16Length(raw) else UsernameMaxLength
    ensures forall i :: 0 <= i < |r| ==> Allowed(r[i])
  {
    ReplaceDisallowed(ToLower(Prefix(CodeUnits(raw), UsernameMaxLength)))
  }

  /** Character by character, over characters below U+10000: an upper-case
      ASCII letter is lowered, a character of the set kept, and anything
      else becomes '_'; code units past the twentieth are dropped. */
  lemma {:induction false} UsernameChars(raw: string, i: nat)
    requires forall j :: 0 <= j < |raw| ==> raw[j] as int < 0x1_0000
    requires i < |raw| && i < UsernameMaxLength
    ensures Username(raw)[i] == if Allowed(LowerChar(raw[i])) then LowerChar(raw[i]) else '_'
  {
    CodeUnitsOfBmp(raw);
    var u := raw[i] as int;
    assert ToLower(Prefix(CodeUnits(raw), UsernameMaxLength))[i] == LowerUnit(u);
    assert LowerUnit(u) == LowerChar(raw[i]) as int;
  }

  /** A character above U+FFFF is two surrogate code units, and each becomes
      an underscore. */
  lemma {:induction false} AstralBecomesTwoUnderscores(c: char)
    requires c as int >= 0x1_0000
    ensures Username([c]) == "__"
  {
    assert [c][1..] == [];
    var units := CodeUnits([c]);
    assert units == CharUnits(c);
    assert AllowedUnit(LowerUnit(units[0])).None? && AllowedUnit(LowerUnit(units[1])).None?;
  }

  /** Sanitising a sanitised name changes nothing. */
  lemma {:induction false} UsernameIdempotent(raw: string)
    ensures Username(Username(raw)) == Username(raw)
  {
    var u := Username(raw);
    CodeUnitsOfBmp(u);
    forall i | 0 <= i < |u|
      ensures Username(u)[i] == u[i]
    {
      assert Allowed(u[i]);
      var k := u[i] as int;
      assert LowerUnit(k) == k;
      assert AllowedUnit(k) == Some(u[i]);
    }
  }

  /** The generated email. */
  function Email(username: string): (r: string)
    ensures |r| == |username| + |EmailDomain|
    ensures r[..|username|] == username && r[|username|..] == EmailDomain
  {
    username + EmailDomain
  }

  /** The email of a generated user has exactly one '@', right after the
      username. */
  lemma {:induction false} EmailHasOneAt(raw: string, i: nat)
    requires i < |Email(Username(raw))|
    ensures Email(Username(raw))[i] == '@' <==> i == |Username(raw)|
  {
    var u := Username(raw);
    var e := Email(u);
    if i < |u| {
      assert e[i] == u[i];
      assert Allowed(u[i]);
    } else {
      assert e[i] == EmailDomain[i - |u|];
    }
  }

  /** `faker.number.int({ min, max })` with the random draw made explicit. */
  function IntInRange(min: int, max: int, draw: nat): (r: int)
    requires min <= max
    ensures min <= r <= max
  {
    min + draw % (max - min + 1)
  }

  /** Every value of the range is produced by some draw. */
  lemma {:induction false} IntInRangeReachesAll(min: int, max: int, v: int)
    requires min <= v <= max
    ensures IntInRange(min, max, (v - min) as nat) == v
  {
    assert (v - min) % (max - min + 1) == v - min;
  }

  /** The numeric columns of a generated player; the birth date is left out. */
  datatype Player = Player(height: int, hometown: string, jerseyNumber: int, weight: int, firstName: string, lastName: string)

  datatype PlayerDraws = PlayerDraws(height: nat, jerseyNumber: nat, weight: nat)

  function CreatePlayer(draws: PlayerDraws, hometown: string, firstName: string, lastName: string): (r: Player)
    ensures 165 <= r.height <= 210
    ensures 1 <= r.jerseyNumber <= 99
    ensures 60 <= r.weight <= 130
    ensures r.hometown == hometown && r.firstName == firstName && r.lastName == lastName
  {
    Player(IntInRange(165, 210, draws.height), hometown, IntInRange(1, 99, draws.jerseyNumber),
           IntInRange(60, 130, draws.weight), firstName, lastName)
  }

  /** A generated team record. */
  datatype TeamRecord = TeamRecord(francJeux: int, goalsAgainst: int, goalsFor: int, losses: int, wins: int,
                                   ties: int, played: int, points: int, plusMinus: int)

  datatype RecordDraws = RecordDraws(francJeux: nat, goalsAgainst: nat, goalsFor: nat, losses: nat, wins: nat,
                                     ties: nat, played: nat, points: nat, plusMinus: nat)

  function CreateRecord(d: RecordDraws): (r: TeamRecord)
    ensures 0 <= r.francJeux <= 30 && 0 <= r.losses <= 30 && 0 <= r.wins <= 30 && 0 <= r.ties <= 30
    ensures 0 <= r.goalsAgainst <= 70 && 0 <= r.goalsFor <= 70
    ensures 0 <= r.played <= 60 && 0 <= r.points <= 120
    ensures -70 <= r.plusMinus <= 70
  {
    TeamRecord(IntInRange(0, 30, d.francJeux), IntInRange(0, 70, d.goalsAgainst), IntInRange(0, 70, d.goalsFor),
               IntInRange(0, 30, d.losses), IntInRange(0, 30, d.wins), IntInRange(0, 30, d.ties),
               IntInRange(0, 60, d.played), IntInRange(0, 120, d.points), IntInRange(-70, 70, d.plusMinus))
  }
}
