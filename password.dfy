/** The password field's strength meter: four requirements, a strength that counts
    the ones met, and the label and colour bands shown for it. */
module PasswordStrength {
  import opened Text

  /** The characters the "special character" requirement looks for. */
  const Specials: string := "!@#$%^&*(),.?\":{}|<>"

  predicate IsSpecial(c: char) { c in Specials }

  /** Some character of `value` satisfies `p`: a one-character regex test. */
  predicate HasSome(value: string, p: char -> bool) {
    exists i :: 0 <= i < |value| && p(value[i])
  }

  datatype Requirements = Requirements(length: bool, number: bool, special: bool, uppercase: bool)

  /** The four tests of the effect. */
  function Check(value: string): Requirements {
    Requirements(|value| >= 8, HasSome(value, IsDigit), HasSome(value, IsSpecial), HasSome(value, IsUpper))
  }

  function Met(b: bool): nat { if b then 1 else 0 }

  /** How many requirements hold. */
  function Strength(r: Requirements): (n: nat)
    ensures n <= 4
    ensures n == 4 <==> r.length && r.number && r.special && r.uppercase
    ensures n == 0 <==> !r.length && !r.number && !r.special && !r.uppercase
  {
    Met(r.length) + Met(r.number) + Met(r.special) + Met(r.uppercase)
  }

  datatype Band = Empty | Weak | Medium | Strong

  function BandOf(strength: nat): Band {
    if strength == 0 then Empty
    else if strength <= 2 then Weak
    else if strength == 3 then Medium
    else Strong
  }

  /** `getStrengthLabel`. */
  function Label(strength: nat): string {
    if strength == 0 then "Enter password"
    else if strength <= 2 then "Weak"
    else if strength == 3 then "Medium"
    else "Strong"
  }

  /** `getStrengthColor`. */
  function Color(strength: nat): string {
    if strength == 0 then "bg-gray-200"
    else if strength <= 2 then "bg-error"
    else if strength == 3 then "bg-warning"
    else "bg-success"
  }

  function BandLabel(b: Band): string {
    match b
    case Empty => "Enter password"
    case Weak => "Weak"
    case Medium => "Medium"
    case Strong => "Strong"
  }

  function BandColor(b: Band): string {
    match b
    case Empty => "bg-gray-200"
    case Weak => "bg-error"
    case Medium => "bg-warning"
    case Strong => "bg-success"
  }

  /** The label and the colour are read off the same band: no strength shows a
      label of one band with the colour of another. */
  lemma LabelColorAgree(strength: nat)
    ensures Label(strength) == BandLabel(BandOf(strength))
    ensures Color(strength) == BandColor(BandOf(strength))
    ensures Label(strength) == "Weak" <==> 1 <= strength <= 2
    ensures Color(strength) == "bg-error" <==> 1 <= strength <= 2
  {
  }

  /** A password is labelled strong exactly when it meets all four requirements,
      and "Enter password" is shown only when it meets none. */
  lemma StrongIff(value: string)
    ensures Label(Strength(Check(value))) == "Strong" <==>
              |value| >= 8 && HasSome(value, IsDigit) && HasSome(value, IsSpecial) && HasSome(value, IsUpper)
    ensures Label(Strength(Check(value))) == "Enter password" <==>
              |value| < 8 && !HasSome(value, IsDigit) && !HasSome(value, IsSpecial) && !HasSome(value, IsUpper)
  {
  }

  lemma HasSomeAppend(v: string, w: string, p: char -> bool)
    ensures HasSome(v, p) ==> HasSome(v + w, p)
    ensures HasSome(w, p) ==> HasSome(v + w, p)
  {
    if HasSome(v, p) {
      var i :| 0 <= i < |v| && p(v[i]);
      assert (v + w)[i] == v[i];
    }
    if HasSome(w, p) {
      var i :| 0 <= i < |w| && p(w[i]);
      assert (v + w)[|v| + i] == w[i];
    }
  }

  /** Typing more never weakens the password: every requirement met stays met. */
  lemma StrengthGrows(v: string, w: string)
    ensures Strength(Check(v)) <= Strength(Check(v + w))
    ensures Strength(Check(w)) <= Strength(Check(v + w))
  {
    HasSomeAppend(v, w, IsDigit);
    HasSomeAppend(v, w, IsSpecial);
    HasSomeAppend(v, w, IsUpper);
  }

  /** What the component keeps in state: the requirements and the strength. */
  datatype Meter = Meter(requirements: Requirements, strength: nat)

  const InitialMeter := Meter(Requirements(false, false, false, false), 0)

  predicate Consistent(m: Meter) { m.strength == Strength(m.requirements) }

  /** The effect run on a change of the value or of `showStrengthMeter`. */
  function Effect(prev: Meter, value: string, show: bool): (m: Meter)
    ensures !show ==> m == prev
    ensures show ==> m.requirements == Check(value) && Consistent(m)
  {
    if !show then prev else Meter(Check(value), Strength(Check(value)))
  }

  /** The shown strength always counts the shown requirements: the initial state
      does, and every run of the effect keeps it so. */
  lemma {:induction false} EffectsConsistent(values: seq<string>, shows: seq<bool>)
    requires |values| == |shows|
    ensures Consistent(Effects(InitialMeter, values, shows))
    decreases |values|
  {
    if values != [] {
      EffectsConsistent(values[..|values| - 1], shows[..|shows| - 1]);
    }
  }

  /** The effect run once per change, in order. */
  function Effects(m: Meter, values: seq<string>, shows: seq<bool>): Meter
    requires |values| == |shows|
    decreases |values|
  {
    if values == [] then m
    else Effect(Effects(m, values[..|values| - 1], shows[..|shows| - 1]), values[|values| - 1], shows[|shows| - 1])
  }
}
