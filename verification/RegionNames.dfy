/** Which region names denote a user parameter, written `name=value`, and what they carry. */
module RegionNames {

  predicate IsSpace(c: char) {
    c == ' ' || c == '\t' || c == '\n' || c == '\r' || c == 11 as char || c == 12 as char
  }

  /** An equals sign next to white space, doubled, or at the end of the name. */
  predicate LooseEquals(name: string) {
    exists k :: 0 <= k < |name| && name[k] == '=' &&
      (|| (k > 0 && IsSpace(name[k - 1]))
       || k + 1 == |name|
       || IsSpace(name[k + 1])
       || name[k + 1] == '=')
  }

  predicate IsOperatorSign(c: char) {
    c in "\\!-+*/"
  }

  /** `s` is white space, then operator signs, then an equals sign and whatever follows. */
  predicate OperatorTail(s: string)
    decreases |s|
  {
    s != [] && (if IsSpace(s[0]) then OperatorTail(s[1..]) else SignsTail(s))
  }

  predicate SignsTail(s: string) {
    s != [] && (s[0] == '=' || (IsOperatorSign(s[0]) && SignsTail(s[1..])))
  }

  predicate OperatorAt(name: string, k: nat) {
    k + 8 <= |name| && name[k..k + 8] == "operator" && OperatorTail(name[k + 8..])
  }

  /** The name of an overloaded assignment or comparison operator. */
  predicate NamesOperator(name: string) {
    exists k :: 0 <= k < |name| && OperatorAt(name, k)
  }

  predicate IsParameterName(name: string) {
    '=' in name && !LooseEquals(name) && !NamesOperator(name)
  }

  function FirstEquals(name: string): (k: nat)
    requires '=' in name
    ensures k < |name| && name[k] == '=' && '=' !in name[..k]
  {
    if name[0] == '=' then 0
    else
      assert name == [name[0]] + name[1..];
      var k := 1 + FirstEquals(name[1..]);
      assert name[..k] == [name[0]] + name[1..][..k - 1];
      k
  }

  function ParameterName(name: string): string
    requires '=' in name
  {
    name[..FirstEquals(name)]
  }

  function ParameterValue(name: string): string
    requires '=' in name
  {
    name[FirstEquals(name) + 1..]
  }

  /** A region name is taken for a parameter only if it splits into a name and a nonempty value
      with no white space at the sign; the two halves give the name back. */
  lemma ParameterSplit(name: string)
    requires IsParameterName(name)
    ensures name == ParameterName(name) + "=" + ParameterValue(name)
    ensures '=' !in ParameterName(name) && ParameterValue(name) != ""
    ensures ParameterValue(name)[0] != '=' && !IsSpace(ParameterValue(name)[0])
  {
    var k := FirstEquals(name);
    assert name == name[..k] + [name[k]] + name[k + 1..];
    assert name[k] == '=';
  }

  /** From `i` on there is nothing but operator signs up to an equals sign at `j`. */
  predicate SignsTo(s: string, i: nat, j: nat) {
    i <= j < |s| && s[j] == '=' && forall k :: i <= k < j ==> IsOperatorSign(s[k])
  }

  /** Up to `i` there is nothing but white space, and then nothing but operator signs up to an equals sign. */
  predicate SpacesAndSigns(s: string, i: nat, j: nat) {
    SignsTo(s, i, j) && forall k :: 0 <= k < i ==> IsSpace(s[k])
  }

  lemma {:induction false} SignsTailIff(s: string)
    ensures SignsTail(s) <==> exists j: nat :: SignsTo(s, 0, j)
  {
    if s != [] {
      SignsTailIff(s[1..]);
      if s[0] == '=' {
        assert SignsTo(s, 0, 0);
      } else {
        if j: nat :| SignsTo(s[1..], 0, j) && IsOperatorSign(s[0]) {
          assert forall k :: 0 < k < j + 1 ==> s[k] == s[1..][k - 1];
          assert SignsTo(s, 0, j + 1);
        }
        if j: nat :| SignsTo(s, 0, j) {
          assert forall k :: 0 <= k < j - 1 ==> s[1..][k] == s[k + 1];
          assert SignsTo(s[1..], 0, j - 1);
        }
      }
    }
  }

  lemma NoSpaceIsSign(c: char)
    ensures IsSpace(c) ==> !IsOperatorSign(c) && c != '='
  {
  }

  lemma {:induction false} OperatorTailIff(s: string)
    ensures OperatorTail(s) <==> exists i: nat, j: nat :: SpacesAndSigns(s, i, j)
  {
    if s != [] {
      NoSpaceIsSign(s[0]);
      if IsSpace(s[0]) {
        OperatorTailIff(s[1..]);
        if i: nat, j: nat :| SpacesAndSigns(s[1..], i, j) {
          assert forall k :: 0 < k < j + 1 ==> s[k] == s[1..][k - 1];
          assert SpacesAndSigns(s, i + 1, j + 1);
        }
        if i: nat, j: nat :| SpacesAndSigns(s, i, j) {
          assert i > 0 && forall k :: 0 <= k < j ==> s[1..][k] == s[k + 1];
          assert SpacesAndSigns(s[1..], i - 1, j - 1);
        }
      } else {
        SignsTailIff(s);
        if j: nat :| SignsTo(s, 0, j) {
          assert SpacesAndSigns(s, 0, j);
        }
      }
    }
  }

  /** The word at `k` is "operator", and what follows it is white space up to `i` and then operator signs up to
      an equals sign at `j`. */
  predicate OperatorSpan(name: string, k: nat, i: nat, j: nat) {
    && k + 8 <= |name| && name[k..k + 8] == "operator" && k + 8 <= i && SignsTo(name, i, j)
    && forall l :: k + 8 <= l < i ==> IsSpace(name[l])
  }

  lemma OperatorAtIff(name: string, k: nat)
    ensures OperatorAt(name, k) <==> exists i: nat, j: nat :: OperatorSpan(name, k, i, j)
  {
    if k + 8 <= |name| {
      var s := name[k + 8..];
      OperatorTailIff(s);
      if i: nat, j: nat :| SpacesAndSigns(s, i, j) && name[k..k + 8] == "operator" {
        assert forall l :: k + 8 <= l < k + 8 + j ==> name[l] == s[l - k - 8];
        assert OperatorSpan(name, k, k + 8 + i, k + 8 + j);
      }
      if i: nat, j: nat :| OperatorSpan(name, k, i, j) {
        assert forall l :: 0 <= l < j - k - 8 ==> s[l] == name[l + k + 8];
        assert SpacesAndSigns(s, i - k - 8, j - k - 8);
      }
    }
  }

  /** A region name is taken for a parameter if and only if it holds an equals sign, every equals sign stands
      alone between characters that are not white space, though it may come first, and none belongs to the
      name of an operator. */
  lemma ParameterIff(name: string)
    ensures IsParameterName(name) <==>
              && (exists k :: 0 <= k < |name| && name[k] == '=')
              && (forall k :: 0 <= k < |name| && name[k] == '=' ==>
                    && k + 1 < |name| && name[k + 1] != '=' && !IsSpace(name[k + 1])
                    && (k > 0 ==> !IsSpace(name[k - 1])))
              && (forall k: nat, i: nat, j: nat :: !OperatorSpan(name, k, i, j))
  {
    hide OperatorAt, OperatorTail, IsSpace;
    forall k: nat
      ensures OperatorAt(name, k) <==> exists i: nat, j: nat :: OperatorSpan(name, k, i, j)
    {
      OperatorAtIff(name, k);
    }
    if exists k: nat, i: nat, j: nat :: OperatorSpan(name, k, i, j) {
      var k: nat, i: nat, j: nat :| OperatorSpan(name, k, i, j);
      assert OperatorAt(name, k);
    }
  }
}
