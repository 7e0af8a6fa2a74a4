/** The names of the transcript's files, and how far they are one-to-one. */
module TranscriptPaths {
  import opened CText
  import opened TranscriptRecord

  const SESSION_ID_MAX: nat := 63
  const PATH_MAX: nat := 191
  const FOLDER := "/vita/audit/sessions/"

  /** The largest part number up to which all part names differ: the number is printed modulo 10000. */
  const PARTS_DISTINCT: nat := 10001

  function Four(v: nat): string {
    [Digit(v / 1000 % 10), Digit(v / 100 % 10), Digit(v / 10 % 10), Digit(v % 10)]
  }

  function PartSuffix(part: nat): string {
    if part <= 1 then ".jsonl" else ".part-" + Four(part) + ".jsonl"
  }

  function PartPath(id: string, part: nat): string { Clip(FOLDER + id + PartSuffix(part), PATH_MAX) }

  function TxtPath(id: string): string { Clip(FOLDER + id + ".txt", PATH_MAX) }

  function SessionName(n: nat): string { "session-" + Six(n) }

  // ---- Distinct names

  lemma ModSplit(p: nat, m: nat)
    requires m > 0
    ensures p % (10 * m) == 10 * (p / 10 % m) + p % 10
  {
    var a, b := p / 10, p % 10;
    var c, d := a / m, a % m;
    assert p == 10 * (m * c + d) + b == 10 * m * c + (10 * d + b);
    ModIs(p, 10 * m, c, 10 * d + b);
  }

  lemma ModIs(x: nat, m: nat, q: nat, r: nat)
    requires m > 0 && x == m * q + r && r < m
    ensures x % m == r
  {
    SmallMultiple(m, x / m - q, r - x % m);
  }

  /** `k` printed digits are the number modulo a power of ten. */
  lemma {:induction false} PaddedModulo(p: nat, q: nat, k: nat)
    ensures Padded(p, k) == Padded(q, k) <==> p % Power10(k) == q % Power10(k)
  {
    if k > 0 {
      PaddedModulo(p / 10, q / 10, k - 1);
      ModSplit(p, Power10(k - 1));
      ModSplit(q, Power10(k - 1));
      var x, y := Padded(p, k), Padded(q, k);
      assert x[..k - 1] == Padded(p / 10, k - 1) && y[..k - 1] == Padded(q / 10, k - 1);
      assert x[k - 1] == y[k - 1] <==> p % 10 == q % 10;
    }
  }

  lemma FourIsPadded(v: nat)
    ensures Four(v) == Padded(v, 4)
  {
    hide Padded, Digit;
    var a, b, c := v / 10, v / 100, v / 1000;
    assert b == a / 10 && c == b / 10;
    PaddedStep(v, 3);
    PaddedStep(a, 2);
    PaddedStep(b, 1);
    PaddedStep(c, 0);
    PaddedNone(c / 10);
  }

  lemma PaddedNone(n: nat)
    ensures Padded(n, 0) == ""
  {
  }

  lemma FourIsModulo(p: nat, q: nat)
    ensures Four(p) == Four(q) <==> p % 10000 == q % 10000
  {
    hide Four, Padded, Power10;
    FourIsPadded(p);
    FourIsPadded(q);
    PaddedModulo(p, q, 4);
    TenThousandIsPower();
  }

  lemma TenThousandIsPower()
    ensures Power10(4) == 10000
  {
  }

  lemma PaddedDistinct(m: nat, n: nat, k: nat)
    requires m < Power10(k) && n < Power10(k) && m != n
    ensures Padded(m, k) != Padded(n, k)
  {
    hide Padded, Power10;
    PaddedModulo(m, n, k);
    SmallRemainder(m, Power10(k));
    SmallRemainder(n, Power10(k));
  }

  lemma SmallRemainder(n: nat, d: nat)
    requires n < d
    ensures n % d == n
  {
  }

  lemma MillionIsPower()
    ensures Power10(6) == 1000000
  {
  }

  lemma SixDistinct(m: nat, n: nat)
    requires m < 1000000 && n < 1000000 && m != n
    ensures Six(m) != Six(n)
  {
    hide Six, Padded, Power10;
    SixIsPadded(m);
    SixIsPadded(n);
    MillionIsPower();
    PaddedDistinct(m, n, 6);
  }

  lemma PathShape(id: string, part: nat)
    requires |id| <= SESSION_ID_MAX
    ensures PartPath(id, part) == FOLDER + id + PartSuffix(part)
    ensures TxtPath(id) == FOLDER + id + ".txt"
  {
  }

  /** Two parts of one session share a name exactly when both are rotated parts and their numbers agree
      modulo 10000. */
  lemma PartNamesClash(id: string, p: nat, q: nat)
    requires |id| <= SESSION_ID_MAX && 1 <= p && 1 <= q
    ensures PartPath(id, p) == PartPath(id, q)
      <==> p == q || (p >= 2 && q >= 2 && p % 10000 == q % 10000)
  {
    PathShape(id, p);
    PathShape(id, q);
    hide Four;
    var f := FOLDER + id;
    if p >= 2 && q >= 2 {
      FourIsModulo(p, q);
      assert PartPath(id, p)[|f| + 6..|f| + 10] == Four(p);
      assert PartPath(id, q)[|f| + 6..|f| + 10] == Four(q);
    }
  }

  lemma PartNamesDistinct(id: string, p: nat, q: nat)
    requires |id| <= SESSION_ID_MAX && 1 <= p < q <= PARTS_DISTINCT
    ensures PartPath(id, p) != PartPath(id, q)
  {
    hide PartPath;
    PartNamesClash(id, p, q);
  }

  lemma TxtIsNoPart(id: string, id': string, part: nat)
    requires |id| <= SESSION_ID_MAX && |id'| <= SESSION_ID_MAX
    ensures TxtPath(id) != PartPath(id', part)
  {
    PathShape(id, 1);
    PathShape(id', part);
    var x, y := TxtPath(id), PartPath(id', part);
    assert x[|x| - 1] == 't' && y[|y| - 1] == 'l';
  }

  /** Names of numbered sessions are one-to-one in the session number. */
  lemma SessionNamesDistinct(m: nat, n: nat, p: nat, q: nat)
    requires m < 1000000 && n < 1000000 && m != n
    ensures TxtPath(SessionName(m)) != TxtPath(SessionName(n))
    ensures PartPath(SessionName(m), p) != PartPath(SessionName(n), q)
  {
    hide Six, PartSuffix, PartPath, TxtPath;
    PathShape(SessionName(m), p);
    PathShape(SessionName(n), q);
    SixDistinct(m, n);
    var k := |FOLDER| + 8;
    assert TxtPath(SessionName(m))[k..k + 6] == Six(m) && TxtPath(SessionName(n))[k..k + 6] == Six(n);
    assert PartPath(SessionName(m), p)[k..k + 6] == Six(m) && PartPath(SessionName(n), q)[k..k + 6] == Six(n);
  }

  // ---- The names, written out

  lemma {:induction false} PaddedValue(n: nat, k: nat)
    requires n < Power10(k)
    ensures DecimalValue(Padded(n, k)) == n
  {
    if k > 0 {
      PaddedValue(n / 10, k - 1);
      assert Padded(n, k)[..k - 1] == Padded(n / 10, k - 1);
    }
  }

  /** The files of a session: the text, the first part, and a rotated part with its number in four digits. */
  lemma FilesAreNamed(id: string, part: nat)
    requires |id| <= SESSION_ID_MAX && 2 <= part < 10000
    ensures TxtPath(id) == "/vita/audit/sessions/" + id + ".txt"
    ensures PartPath(id, 1) == "/vita/audit/sessions/" + id + ".jsonl"
    ensures |Four(part)| == 4 && DecimalValue(Four(part)) == part
    ensures PartPath(id, part) == "/vita/audit/sessions/" + id + (".part-" + Four(part) + ".jsonl")
  {
    hide Four, Padded, DecimalValue;
    FourIsPadded(part);
    TenThousandIsPower();
    PaddedValue(part, 4);
  }

  /** A numbered session is called by its number in six digits. */
  lemma SessionsAreNamed(n: nat)
    requires n < 1000000
    ensures SessionName(n) == "session-" + Six(n) && DecimalValue(Six(n)) == n
  {
    hide Six, Padded, DecimalValue;
    SixIsPadded(n);
    MillionIsPower();
    PaddedValue(n, 6);
  }
}
