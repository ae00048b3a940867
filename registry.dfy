/**
  The adapter registry: `get_pms` resolves a vendor name to an adapter by building the class
  name "PMS_" + capitalize(name) and looking it up among the class names of the module, and
  the `name` property of an adapter is its class name without the 4-character "PMS_" prefix.
  Python's `str.capitalize` is modelled on ASCII letters only.
 */
module Registry {
  import opened Wrappers

  /** The class names that `get_pms` can find; only those starting with "PMS_" can ever match. */
  const REGISTERED: set<string> := {"PMS", "PMS_Mews"}

  const PREFIX: string := "PMS_"

  /** An adapter instance, identified by the name of its class. */
  datatype Adapter = Adapter(className: string)

  function UpperAscii(c: char): char {
    if 'a' <= c <= 'z' then (c as int - 32) as char else c
  }

  function LowerAscii(c: char): char {
    if 'A' <= c <= 'Z' then (c as int + 32) as char else c
  }

  function LowerAll(s: string): (r: string)
    ensures |r| == |s|
    ensures forall i :: 0 <= i < |s| ==> r[i] == LowerAscii(s[i])
  {
    if s == [] then [] else [LowerAscii(s[0])] + LowerAll(s[1..])
  }

  /** `str.capitalize`: the first character upper-cased, all others lower-cased. */
  function Capitalize(s: string): string {
    if s == [] then [] else [UpperAscii(s[0])] + LowerAll(s[1..])
  }

  /** The `name` property: the class name with its first four characters dropped. */
  function Name(className: string): (r: string)
    ensures |className| >= 4 ==> className == className[..4] + r
    ensures |className| < 4 ==> r == ""
  {
    if |className| >= 4 then className[4..] else ""
  }

  /** `get_pms`: an adapter when "PMS_" + capitalize(name) is a registered class, `None` for `False`. */
  function GetPms(name: string): (r: Option<Adapter>)
    ensures r.Some? <==> PREFIX + Capitalize(name) in REGISTERED
    ensures r.Some? ==> r.value.className in REGISTERED && Name(r.value.className) == Capitalize(name)
  {
    var fullName := PREFIX + Capitalize(name);
    assert Name(fullName) == Capitalize(name) by {
      assert fullName[..4] == PREFIX;
    }
    if fullName in REGISTERED then Some(Adapter(fullName)) else None
  }

  lemma UpperIsM(c: char)
    ensures UpperAscii(c) == 'M' <==> LowerAscii(c) == 'm'
  {
  }

  /** A vendor name resolves exactly when it spells "mews" in any mix of letter cases. */
  lemma {:induction false} GetPmsIgnoresCase(name: string)
    ensures GetPms(name).Some? <==> LowerAll(name) == "mews"
    ensures GetPms(name).Some? ==> Name(GetPms(name).value.className) == "Mews"
  {
    var c := Capitalize(name);
    assert PREFIX + c in REGISTERED <==> c == "Mews" by {
      if PREFIX + c == "PMS_Mews" {
        assert c == (PREFIX + c)[4..];
      }
      assert |PREFIX + c| != |"PMS"|;
    }
    if name == [] {
      assert c == [];
    } else {
      UpperIsM(name[0]);
      var low := LowerAll(name);
      assert c == [UpperAscii(name[0])] + LowerAll(name[1..]);
      if c == "Mews" {
        assert |name| == 4;
        assert c[0] == UpperAscii(name[0]);
        assert c[1] == LowerAscii(name[1]) && c[2] == LowerAscii(name[2]) && c[3] == LowerAscii(name[3]);
        assert low[0] == 'm' && low[1] == 'e' && low[2] == 'w' && low[3] == 's';
        assert low == "mews";
      }
      if low == "mews" {
        assert |name| == 4;
        assert c == "Mews";
      }
    }
  }

  /** "mews", "MEWS" and "mEwS" all resolve to the Mews adapter, whose name is "Mews". */
  lemma MewsInAnyCase()
    ensures GetPms("mews") == GetPms("MEWS") == GetPms("mEwS") == Some(Adapter("PMS_Mews"))
    ensures Name("PMS_Mews") == "Mews"
    ensures GetPms("opera").None?
  {
    assert Capitalize("mews") == "Mews";
    assert Capitalize("MEWS") == "Mews";
    assert Capitalize("mEwS") == "Mews";
    assert PREFIX + "Mews" == "PMS_Mews";
    assert Capitalize("opera") == "Opera";
    assert PREFIX + "Opera" !in REGISTERED by {
      assert |PREFIX + "Opera"| == 9;
    }
  }
}
