/** Priority selectors such as `answer` or `related_topics.0`: the text is
    split on `.`, the first piece names a `Response` attribute and the
    second, when present, is an integer index read with `int()`. */
module Selectors {
  import opened Errors

  /** `str.split('.')`: the pieces between the dots, empty ones included. */
  function Split(s: string): (r: seq<string>)
    ensures |r| >= 1
    decreases |s|
  {
    if s == "" then [""]
    else if s[0] == '.' then [""] + Split(s[1..])
    else
      var rest := Split(s[1..]);
      [[s[0]] + rest[0]] + rest[1..]
  }

  /** `'.'.join(pieces)`. */
  function Join(pieces: seq<string>): string
    requires |pieces| >= 1
    decreases |pieces|
  {
    if |pieces| == 1 then pieces[0] else pieces[0] + "." + Join(pieces[1..])
  }

  /** Splitting loses nothing: the pieces join back to the text. */
  lemma {:induction false} SplitJoin(s: string)
    ensures Join(Split(s)) == s
    decreases |s|
  {
    if s != "" {
      SplitJoin(s[1..]);
      var rest := Split(s[1..]);
      var r := Split(s);
      if s[0] == '.' {
        assert r[1..] == rest;
        assert Join(r) == "" + "." + Join(rest);
      } else {
        assert r[0] == [s[0]] + rest[0] && r[1..] == rest[1..];
        if |rest| > 1 {
          assert Join(r) == r[0] + "." + Join(rest[1..]);
          assert Join(rest) == rest[0] + "." + Join(rest[1..]);
        }
      }
      assert s == [s[0]] + s[1..];
    }
  }

  /** No piece contains a dot. */
  lemma {:induction false} SplitPiecesDotFree(s: string)
    ensures forall k :: 0 <= k < |Split(s)| ==> '.' !in Split(s)[k]
    decreases |s|
  {
    if s != "" {
      SplitPiecesDotFree(s[1..]);
      var rest := Split(s[1..]);
      var r := Split(s);
      forall k | 0 <= k < |r| ensures '.' !in r[k] {
        if s[0] == '.' {
          if k > 0 { assert r[k] == rest[k - 1]; }
        } else if k == 0 {
          assert r[0] == [s[0]] + rest[0];
        } else {
          assert r[k] == rest[k];
        }
      }
    }
  }

  /** A text without dots is its own single piece. */
  lemma {:induction false} SplitNoDot(s: string)
    requires '.' !in s
    ensures Split(s) == [s]
    decreases |s|
  {
    if s != "" {
      assert '.' !in s[1..] by {
        forall k | 0 <= k < |s[1..]| ensures s[1..][k] != '.' { assert s[1..][k] == s[k + 1]; }
      }
      SplitNoDot(s[1..]);
      assert s == [s[0]] + s[1..];
    }
  }

  /** `name.index` splits into the name and the index text. */
  lemma SplitTwo(name: string, index: string)
    requires '.' !in name && '.' !in index
    ensures Split(name + "." + index) == [name, index]
    decreases |name|
  {
    if name == "" {
      assert ("" + "." + index)[1..] == index;
      SplitNoDot(index);
    } else {
      assert (name + "." + index)[1..] == name[1..] + "." + index;
      assert '.' !in name[1..] by {
        forall k | 0 <= k < |name[1..]| ensures name[1..][k] != '.' { assert name[1..][k] == name[k + 1]; }
      }
      SplitTwo(name[1..], index);
      assert name == [name[0]] + name[1..];
    }
  }

  predicate IsDigit(c: char) { '0' <= c <= '9' }

  predicate AllDigits(s: string) { forall k :: 0 <= k < |s| ==> IsDigit(s[k]) }

  /** The value of a run of decimal digits, read left to right. */
  function DigitsValue(s: string): (n: nat)
    requires AllDigits(s)
    decreases |s|
  {
    if s == "" then 0
    else DigitsValue(s[..|s| - 1]) * 10 + (s[|s| - 1] as int - '0' as int)
  }

  /** The texts `int()` accepts here: an optional sign, then one or more digits. */
  predicate IsIntLiteral(text: string) {
    (text != "" && AllDigits(text))
    || (|text| > 1 && (text[0] == '-' || text[0] == '+') && AllDigits(text[1..]))
  }

  /** `int(text)` for an optional sign followed by one or more digits; any
      other text is a `ValueError`. */
  function ParseInt(text: string): (r: Result<int>)
    ensures r.Ok? <==> IsIntLiteral(text)
    ensures r.Err? ==> r.error == ValueError(text)
    ensures AllDigits(text) && text != "" ==> r == Ok(DigitsValue(text))
    ensures |text| > 1 && text[0] == '+' && AllDigits(text[1..]) ==> r == Ok(DigitsValue(text[1..]))
    ensures |text| > 1 && text[0] == '-' && AllDigits(text[1..]) ==> r == Ok(-(DigitsValue(text[1..]) as int))
  {
    var signed := text != "" && (text[0] == '-' || text[0] == '+');
    var digits := if signed then text[1..] else text;
    if digits == "" || !AllDigits(digits) then Err(ValueError(text))
    else
      var v: int := DigitsValue(digits);
      if signed && text[0] == '-' then Ok(-v) else Ok(v)
  }

  /** Leading zeros do not change the value: `int('007') == int('7')`. */
  lemma {:induction false} LeadingZeroIgnored(s: string)
    requires AllDigits(s)
    ensures AllDigits("0" + s) && DigitsValue("0" + s) == DigitsValue(s)
    decreases |s|
  {
    assert AllDigits("0" + s) by {
      forall k | 0 <= k < |"0" + s| ensures IsDigit(("0" + s)[k]) {
        if k > 0 { assert ("0" + s)[k] == s[k - 1]; }
      }
    }
    if s != "" {
      var init := s[..|s| - 1];
      assert AllDigits(init) by {
        forall k | 0 <= k < |init| ensures IsDigit(init[k]) { assert init[k] == s[k]; }
      }
      assert ("0" + s)[..|"0" + s| - 1] == "0" + init;
      LeadingZeroIgnored(init);
    }
  }

  /** A further leading zero after the sign or at the start of an integer
      literal reads the same integer, `int('-007') == -7`. */
  lemma SignedLeadingZeroIgnored(sign: string, digits: string)
    requires sign == "" || sign == "-" || sign == "+"
    requires digits != "" && AllDigits(digits)
    ensures ParseInt(sign + "0" + digits) == ParseInt(sign + digits)
  {
    LeadingZeroIgnored(digits);
    assert (sign + "0" + digits)[|sign|..] == "0" + digits;
    assert (sign + digits)[|sign|..] == digits;
    if sign != "" {
      assert (sign + "0" + digits)[1..] == "0" + digits;
      assert (sign + digits)[1..] == digits;
    }
  }

  /** Decimal digits of a natural number, most significant first. */
  function NatText(n: nat): (s: string)
    ensures AllDigits(s) && s != ""
  {
    (if n < 10 then "" else NatText(n / 10)) + [('0' as int + n % 10) as char]
  }

  /** `str(n)` for an integer. */
  function IntText(n: int): string {
    if n < 0 then "-" + NatText(-n) else NatText(n)
  }

  lemma {:induction false} DigitsOfNatText(n: nat)
    ensures DigitsValue(NatText(n)) == n
  {
    var s := NatText(n);
    assert s[..|s| - 1] == if n < 10 then "" else NatText(n / 10);
    if n >= 10 { DigitsOfNatText(n / 10); }
  }

  /** `int(str(n)) == n`: every index can be written in a selector. */
  lemma ParseIntText(n: int)
    ensures ParseInt(IntText(n)) == Ok(n)
  {
    if n < 0 {
      DigitsOfNatText(-n);
      assert IntText(n)[1..] == NatText(-n);
    } else {
      DigitsOfNatText(n);
      assert IntText(n)[0] != '-' && IntText(n)[0] != '+' by {
        assert IsDigit(NatText(n)[0]);
      }
    }
  }

  /** The attributes of `Response` a selector can name. */
  datatype Field =
    KindField | HeadingField | ResultsField | RelatedTopicsField | AbstractField
    | RedirectField | DefinitionField | AnswerField | ImageField

  /** The attribute name `getattr` looks for. */
  function FieldName(f: Field): string {
    match f
    case KindField => "kind"
    case HeadingField => "heading"
    case ResultsField => "results"
    case RelatedTopicsField => "related_topics"
    case AbstractField => "abstract"
    case RedirectField => "redirect"
    case DefinitionField => "definition"
    case AnswerField => "answer"
    case ImageField => "image"
  }

  /** `getattr` by name: an unknown name is an `AttributeError`. */
  function LookupField(name: string): (r: Result<Field>)
    ensures r.Ok? ==> FieldName(r.value) == name
    ensures r.Err? ==> r.error == AttributeError(name) && forall f: Field :: FieldName(f) != name
  {
    match name
    case "kind" => Ok(KindField)
    case "heading" => Ok(HeadingField)
    case "results" => Ok(ResultsField)
    case "related_topics" => Ok(RelatedTopicsField)
    case "abstract" => Ok(AbstractField)
    case "redirect" => Ok(RedirectField)
    case "definition" => Ok(DefinitionField)
    case "answer" => Ok(AnswerField)
    case "image" => Ok(ImageField)
    case _ => Err(AttributeError(name))
  }

  /** A parsed selector: the attribute and the optional index. */
  datatype Selector = Selector(field: Field, index: Option<int>)

  datatype Option<+T> = None | Some(value: T)

  /** Parses one priority entry. The index text is converted before the name
      is looked up, so a bad index is reported before an unknown name; pieces
      after the second are ignored. */
  function ParseSelector(p: string): (r: Result<Selector>)
    ensures r.Ok? ==> FieldName(r.value.field) == Split(p)[0]
    ensures r.Ok? ==> (r.value.index.Some? <==> |Split(p)| > 1)
    ensures r.Ok? && |Split(p)| > 1 ==> ParseInt(Split(p)[1]) == Ok(r.value.index.value)
    ensures |Split(p)| > 1 && ParseInt(Split(p)[1]).Err? ==> r == Err(ValueError(Split(p)[1]))
    // once the index (if any) is read, the outcome is the name lookup's
    ensures (|Split(p)| == 1 || ParseInt(Split(p)[1]).Ok?) ==>
              (r.Ok? <==> LookupField(Split(p)[0]).Ok?)
    ensures (|Split(p)| == 1 || ParseInt(Split(p)[1]).Ok?) && LookupField(Split(p)[0]).Err? ==>
              r == Err(AttributeError(Split(p)[0]))
  {
    var ps := Split(p);
    var index :- if |ps| > 1 then
                   var i :- ParseInt(ps[1]); Ok(Some(i))
                 else Ok(None);
    var field :- LookupField(ps[0]);
    Ok(Selector(field, index))
  }

  /** The text of a selector. */
  function SelectorText(s: Selector): string {
    match s.index
    case None => FieldName(s.field)
    case Some(i) => FieldName(s.field) + "." + IntText(i)
  }

  /** Every attribute is found again under its own name. */
  lemma LookupFieldName(f: Field)
    ensures LookupField(FieldName(f)) == Ok(f)
    ensures '.' !in FieldName(f)
  {
    match f
    case KindField =>
    case HeadingField =>
    case ResultsField =>
    case RelatedTopicsField =>
    case AbstractField =>
    case RedirectField =>
    case DefinitionField =>
    case AnswerField =>
    case ImageField =>
  }

  lemma IntTextDotFree(i: int)
    ensures '.' !in IntText(i)
  {
    var t := NatText(if i < 0 then -i else i);
    assert AllDigits(t);
    assert IntText(i) == if i < 0 then "-" + t else t;
  }

  /** Round trip: every selector is parsed back from its text. */
  lemma ParseSelectorText(s: Selector)
    ensures ParseSelector(SelectorText(s)) == Ok(s)
  {
    var name := FieldName(s.field);
    LookupFieldName(s.field);
    match s.index
    case None =>
      SplitNoDot(name);
    case Some(i) =>
      IntTextDotFree(i);
      SplitTwo(name, IntText(i));
      ParseIntText(i);
  }
}
