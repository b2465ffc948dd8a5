/** Input validation of a text field, with the rules a model serializer
    derives from a model column: a column without a default and without
    `blank=True` is required and may not be blank; `blank=True` makes it
    optional and blank-able; `max_length` bounds its length. A partial update
    (PATCH) requires nothing. The generated character fields trim surrounding
    whitespace (`trim_whitespace=True`, the default): the blank test and the
    length test look at the trimmed value, and the trimmed value is what is
    saved. */
module Fields {
  import opened Common

  datatype TextRule = TextRule(name: string, required: bool, allowBlank: bool, maxLength: Option<nat>)

  /** The rule of a column, for a full (`partial == false`) or a partial update. */
  function ForUpdate(rule: TextRule, partial: bool): (r: TextRule)
    ensures r.name == rule.name && r.allowBlank == rule.allowBlank && r.maxLength == rule.maxLength
    ensures r.required <==> rule.required && !partial
  {
    rule.(required := rule.required && !partial)
  }

  // ---------------------------------------------------------------------------
  // Whitespace trimming (Python's `str.strip()` without arguments)

  /** The characters Python's `str.isspace()` accepts. */
  predicate IsSpace(c: char) {
    var n := c as int;
    || 0x09 <= n <= 0x0D || 0x1C <= n <= 0x20 || n == 0x85 || n == 0xA0 || n == 0x1680
    || 0x2000 <= n <= 0x200A || n == 0x2028 || n == 0x2029 || n == 0x202F || n == 0x205F || n == 0x3000
  }

  /** Every character of `s` is whitespace (vacuously so for ""). */
  predicate AllSpace(s: string) {
    forall i :: 0 <= i < |s| ==> IsSpace(s[i])
  }

  /** `s` neither starts nor ends with whitespace. */
  predicate Trimmed(s: string) {
    s != [] ==> !IsSpace(s[0]) && !IsSpace(s[|s| - 1])
  }

  /** `s` without its leading whitespace. */
  function TrimStart(s: string): (r: string)
    ensures |r| <= |s| && r == s[|s| - |r|..]
    ensures AllSpace(s[..|s| - |r|])
    ensures r != [] ==> !IsSpace(r[0])
  {
    if s != [] && IsSpace(s[0]) then TrimStart(s[1..]) else s
  }

  /** `s` without its trailing whitespace. */
  function TrimEnd(s: string): (r: string)
    ensures |r| <= |s| && r == s[..|r|]
    ensures AllSpace(s[|r|..])
    ensures r != [] ==> !IsSpace(r[|r| - 1])
  {
    if s != [] && IsSpace(s[|s| - 1]) then
      var r := TrimEnd(s[..|s| - 1]);
      assert s[..|s| - 1][..|r|] == s[..|r|];
      assert s[|r|..] == s[..|s| - 1][|r|..] + [s[|s| - 1]];
      r
    else s
  }

  /** `s.strip()`: `s` without its leading and its trailing whitespace. */
  function Strip(s: string): (r: string)
    ensures |r| <= |s|
    ensures Trimmed(r)
    ensures r == [] <==> AllSpace(s)
  {
    var t := TrimStart(s);
    assert AllSpace(s) ==> t == [] by {
      if t != [] { assert t[0] == s[|s| - |t|]; }
    }
    TrimEnd(t)
  }

  /** The result of `strip()` is the middle part of `s`, and everything cut
      off around it is whitespace. */
  lemma StripIsMiddle(s: string)
    ensures exists k :: 0 <= k <= |s| - |Strip(s)| && Strip(s) == s[k..k + |Strip(s)|]
                        && AllSpace(s[..k]) && AllSpace(s[k + |Strip(s)|..])
  {
    var t := TrimStart(s);
    var r := TrimEnd(t);
    var k := |s| - |t|;
    assert r == s[k..k + |r|];
    assert s[k + |r|..] == t[|r|..];
  }

  /** Leading whitespace up to the first non-space character at `k` is what
      TrimStart removes. */
  lemma {:induction false} TrimStartAt(s: string, k: nat)
    requires k < |s| && AllSpace(s[..k]) && !IsSpace(s[k])
    ensures TrimStart(s) == s[k..]
    decreases k
  {
    if k > 0 {
      assert s[..k][0] == s[0];
      assert s[1..][..k - 1] == s[1..k] && AllSpace(s[1..k]) by {
        forall i | 0 <= i < k - 1 ensures IsSpace(s[1..k][i]) {
          assert s[1..k][i] == s[..k][i + 1];
        }
      }
      TrimStartAt(s[1..], k - 1);
      assert s[1..][k - 1..] == s[k..];
    }
  }

  /** Trailing whitespace after the last non-space character at `e - 1` is
      what TrimEnd removes. */
  lemma {:induction false} TrimEndAt(s: string, e: nat)
    requires 0 < e <= |s| && AllSpace(s[e..]) && !IsSpace(s[e - 1])
    ensures TrimEnd(s) == s[..e]
    decreases |s| - e
  {
    if e < |s| {
      assert s[e..][|s| - 1 - e] == s[|s| - 1];
      var t := s[..|s| - 1];
      assert t[e..] == s[e..|s| - 1] && AllSpace(t[e..]) by {
        forall i | 0 <= i < |s| - 1 - e ensures IsSpace(t[e..][i]) {
          assert t[e..][i] == s[e..][i];
        }
      }
      TrimEndAt(t, e);
      assert t[..e] == s[..e];
    }
  }

  /** The cut-off parts and the trimmed middle determine the result: any split
      of `s` into whitespace, a non-empty trimmed middle and whitespace yields
      that middle. */
  lemma StripUnique(s: string, k: nat, m: string)
    requires k + |m| <= |s| && m == s[k..k + |m|] && m != []
    requires AllSpace(s[..k]) && AllSpace(s[k + |m|..]) && Trimmed(m)
    ensures Strip(s) == m
  {
    assert s[k] == m[0];
    TrimStartAt(s, k);
    var t := s[k..];
    assert t[|m|..] == s[k + |m|..];
    assert t[|m| - 1] == m[|m| - 1];
    TrimEndAt(t, |m|);
    assert t[..|m|] == m;
  }

  /** A value that neither starts nor ends with whitespace is kept as it is. */
  lemma StripKeepsTrimmed(s: string)
    requires Trimmed(s)
    ensures Strip(s) == s
  {
    if s != [] {
      assert s[0..0 + |s|] == s;
      StripUnique(s, 0, s);
    }
  }

  /** Trimming twice is trimming once. */
  lemma StripIdempotent(s: string)
    ensures Strip(Strip(s)) == Strip(s)
  {
    StripKeepsTrimmed(Strip(s));
  }

  /** The submitted value after trimming; nothing when nothing was submitted. */
  function Cleaned(v: Option<string>): (c: Option<string>)
    ensures c.None? <==> v.None?
    ensures v.Some? ==> c.value == Strip(v.value)
  {
    match v
    case None => None
    case Some(s) => Some(Strip(s))
  }

  // ---------------------------------------------------------------------------
  // One field

  /** Checks one submitted value, in the order the framework does: presence,
      then blankness after trimming, then the validators of the trimmed value
      (its length, then the refusal of NUL characters). An accepted value is
      returned trimmed. */
  function CheckText(rule: TextRule, v: Option<string>): (r: Result<Option<string>>)
    ensures r.Ok? ==> r.value == Cleaned(v)
    ensures r.Ok? <==> && (v.None? ==> !rule.required)
                       && (v.Some? && AllSpace(v.value) ==> rule.allowBlank)
                       && (v.Some? && rule.maxLength.Some? ==> |Strip(v.value)| <= rule.maxLength.value)
                       && (v.Some? ==> '\0' !in v.value)
    ensures v.None? && rule.required ==> r == Err(FieldRequired(rule.name))
    ensures v.Some? && AllSpace(v.value) && !rule.allowBlank ==> r == Err(FieldBlank(rule.name))
    ensures v.Some? && !(AllSpace(v.value) && !rule.allowBlank) && rule.maxLength.Some? &&
            |Strip(v.value)| > rule.maxLength.value ==>
              r == Err(FieldTooLong(rule.name))
    ensures v.Some? && '\0' in v.value && (rule.maxLength.None? || |Strip(v.value)| <= rule.maxLength.value) ==>
              r == Err(FieldNullCharacter(rule.name))
    ensures r.Err? ==> r.error in {FieldRequired(rule.name), FieldBlank(rule.name), FieldTooLong(rule.name),
                                   FieldNullCharacter(rule.name)}
    ensures r.Ok? && r.value.Some? ==> Trimmed(r.value.value)
  {
    match v
    case None => if rule.required then Err(FieldRequired(rule.name)) else Ok(None)
    case Some(s) =>
      var t := Strip(s);
      if t == "" && !rule.allowBlank then Err(FieldBlank(rule.name))
      else if rule.maxLength.Some? && |t| > rule.maxLength.value then Err(FieldTooLong(rule.name))
      else if '\0' in t then Err(FieldNullCharacter(rule.name))
      else Ok(Some(t))
  }
}
