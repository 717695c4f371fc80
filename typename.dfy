/** `get_type_name`: a plural list name such as `deposits` turned into the
    label `Deposit`. Case mapping is ASCII only. */
module TypeNames {

  predicate IsUpper(ch: char) { 'A' <= ch <= 'Z' }

  predicate IsLower(ch: char) { 'a' <= ch <= 'z' }

  function ToUpper(ch: char): (u: char)
    ensures !IsLower(u)
  {
    if IsLower(ch) then (ch as int - 32) as char else ch
  }

  function ToLower(ch: char): (l: char)
    ensures !IsUpper(l)
  {
    if IsUpper(ch) then (ch as int + 32) as char else ch
  }

  /** Every character lower-cased. */
  function LowerAll(s: string): (r: string)
    ensures |r| == |s|
    ensures forall i :: 0 <= i < |s| ==> r[i] == ToLower(s[i])
  {
    seq(|s|, i requires 0 <= i < |s| => ToLower(s[i]))
  }

  /** Python's `str.capitalize`: the first character upper case, the rest
      lower case, letters otherwise unchanged. */
  function Capitalize(s: string): (r: string)
    ensures |r| == |s|
    ensures forall i :: 0 <= i < |s| ==> ToLower(r[i]) == ToLower(s[i])
    ensures |r| > 0 ==> !IsLower(r[0])
    ensures forall i :: 0 < i < |r| ==> !IsUpper(r[i])
  {
    if s == [] then [] else [ToUpper(s[0])] + LowerAll(s[1..])
  }

  lemma CapitalizeIdempotent(s: string)
    ensures Capitalize(Capitalize(s)) == Capitalize(s)
  {
  }

  /** The name without its last character (`item[:-1]`, empty for an empty
      name), capitalised. */
  function TypeName(item: string): (r: string)
    ensures |r| == if item == [] then 0 else |item| - 1
    ensures forall i :: 0 <= i < |r| ==> ToLower(r[i]) == ToLower(item[i])
    ensures |r| > 0 ==> !IsLower(r[0])
    ensures forall i :: 0 < i < |r| ==> !IsUpper(r[i])
  {
    Capitalize(if item == [] then [] else item[..|item| - 1])
  }

  /** A lower-case word only has its first letter raised. */
  lemma CapitalizeLowerCaseWord(s: string)
    requires s != [] && forall i :: 0 <= i < |s| ==> IsLower(s[i])
    ensures Capitalize(s) == [ToUpper(s[0])] + s[1..]
  {
    var r := Capitalize(s);
    forall i | 0 <= i < |s|
      ensures r[i] == ([ToUpper(s[0])] + s[1..])[i]
    {
    }
  }

  /** Labels of two of the action lists. */
  lemma TypeNameDeposit()
    ensures TypeName("deposits") == "Deposit"
  {
    assert "deposits"[..7] == "deposit";
    CapitalizeLowerCaseWord("deposit");
  }

  lemma TypeNameLiquidate()
    ensures TypeName("liquidates") == "Liquidate"
  {
    assert "liquidates"[..9] == "liquidate";
    CapitalizeLowerCaseWord("liquidate");
  }
}
