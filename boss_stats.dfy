/** The boss description shared by days 21 and 22: lines of the form
    `Hit Points: 104`, read by `update_boss`. */
module BossStats {
  import opened Common

  const U64_LIMIT: int := 0x1_0000_0000_0000_0000

  datatype Attribute = HitPoints | Damage | Armor

  /** What one line of the boss description does. */
  datatype Update = Blank | Assign(attribute: Attribute, value: nat) | Failed | Unknown

  /** The first position of `c` in `s`. */
  function IndexOf(s: string, c: char, from: nat): (r: Option<nat>)
    requires from <= |s|
    ensures r.Some? ==> from <= r.value < |s| && s[r.value] == c && forall i :: from <= i < r.value ==> s[i] != c
    ensures r.None? ==> forall i :: from <= i < |s| ==> s[i] != c
    decreases |s| - from
  {
    if from == |s| then None else if s[from] == c then Some(from) else IndexOf(s, c, from + 1)
  }

  /** ASCII `to_lowercase`. */
  function Lower(s: string): (r: string)
    ensures |r| == |s|
  {
    seq(|s|, i requires 0 <= i < |s| => if 'A' <= s[i] <= 'Z' then (s[i] as int + 32) as char else s[i])
  }

  predicate AllDigits(s: string) {
    forall i :: 0 <= i < |s| ==> IsDigit(s[i])
  }

  /** The digits of a number, its optional '+' removed. */
  function Unsigned(s: string): string {
    if s != [] && s[0] == '+' then s[1..] else s
  }

  /** `u64::from_str`: an optional '+', then one or more digits, below
      2^64. */
  function ParseU64(s: string): (r: Option<nat>)
    ensures r.Some? ==> r.value < U64_LIMIT
  {
    var digits := Unsigned(s);
    if digits != [] && AllDigits(digits) && DecimalValue(digits) < U64_LIMIT then Some(DecimalValue(digits))
    else None
  }

  /** The attribute a lower-cased name stands for. */
  function AttributeNamed(name: string): (a: Option<Attribute>)
    ensures a == Some(HitPoints) <==> name == "hit points"
    ensures a == Some(Damage) <==> name == "damage"
    ensures a == Some(Armor) <==> name == "armor"
  {
    if name == "hit points" then Some(HitPoints)
    else if name == "damage" then Some(Damage)
    else if name == "armor" then Some(Armor)
    else None
  }

  /** `update_boss` on one line: blank lines change nothing; otherwise the
      part before the first ':' names the attribute, case aside, and the
      part after it is the value. A missing ':' or a bad number is an
      error; an unknown name is `unreachable!`. */
  function ParseUpdate(line: string): Update {
    var update := Trim(line);
    if update == [] then Blank
    else
      match IndexOf(update, ':', 0)
      case None => Failed
      case Some(k) => ParseAssignment(update, k)
  }

  /** The value after the ':' at `k` and the name before it. */
  function ParseAssignment(update: string, k: nat): Update
    requires k < |update|
  {
    match ParseU64(Trim(update[k + 1..]))
    case None => Failed
    case Some(v) =>
      match AttributeNamed(Lower(Trim(update[..k])))
      case None => Unknown
      case Some(a) => Assign(a, v)
  }

  lemma KnownBlank()
    ensures ParseUpdate("") == Blank
  {
    assert Trim("") == "";
  }

  /** A trimmed line with a ':' at `k` is read as an assignment at `k`. */
  lemma ParseUpdateAt(line: string, k: nat)
    requires Trim(line) == line && line != []
    requires IndexOf(line, ':', 0) == Some(k)
    ensures ParseUpdate(line) == ParseAssignment(line, k)
  {
  }

  /** A line whose name and value parse assigns that value. */
  lemma ParseAssign(line: string, k: nat, a: Attribute, v: nat)
    requires Trim(line) == line && line != []
    requires IndexOf(line, ':', 0) == Some(k)
    requires ParseU64(Trim(line[k + 1..])) == Some(v)
    requires AttributeNamed(Lower(Trim(line[..k]))) == Some(a)
    ensures ParseUpdate(line) == Assign(a, v)
  {
    ParseUpdateAt(line, k);
  }

  lemma KnownArmorColon()
    ensures IndexOf("Armor: 2", ':', 0) == Some(5)
  {
  }

  lemma KnownArmorSlices()
    ensures "Armor: 2"[6..] == " 2" && "Armor: 2"[..5] == "Armor"
  {
  }

  lemma KnownArmorSpace()
    ensures TrimStart(" 2") == "2"
  {
    assert " 2"[1..] == "2";
  }

  lemma KnownArmorDigits()
    ensures ParseU64("2") == Some(2)
  {
  }

  lemma KnownArmorValue()
    ensures Trim(" 2") == "2"
  {
    KnownArmorSpace();
    TrimUnchanged("2");
  }

  lemma KnownArmorName()
    ensures Trim("Armor") == "Armor" && AttributeNamed(Lower("Armor")) == Some(Armor)
  {
    TrimUnchanged("Armor");
    assert Lower("Armor") == "armor";
  }

  lemma KnownUpdateArmor()
    ensures ParseUpdate("Armor: 2") == Assign(Armor, 2)
  {
    TrimUnchanged("Armor: 2");
    KnownArmorColon();
    KnownArmorSlices();
    KnownArmorValue();
    KnownArmorDigits();
    KnownArmorName();
    ParseAssign("Armor: 2", 5, Armor, 2);
  }
}
