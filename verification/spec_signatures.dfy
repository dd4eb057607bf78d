/**
 Signatures of events: the name and, in parentheses, the types of the parameters. A signature is read
 back character by character, which tells what it says and which events it tells apart.
 */
module SpecSignatures {
  import opened Wrappers

  datatype Tag = Unknown | Void | Integer | Boolean | String | Bytes | Struct | Address

  /** The type of a parameter. */
  datatype Parameter = Parameter(tag: Tag, dimension: int)

  /** The names of types in signatures. */
  function SignatureName(tag: Tag): Option<string> {
    match tag
    case Unknown => None
    case Void => None
    case Integer => Some("int")
    case Boolean => Some("bool")
    case String => Some("str")
    case Bytes => Some("bytes")
    case Struct => Some("struct")
    case Address => Some("Address")
  }

  function Brackets(dimension: int): string
    decreases dimension
  {
    if dimension <= 0 then "" else Brackets(dimension - 1) + "[]"
  }

  /** A type other than Void, of any dimension that is not negative. */
  predicate Named(p: Parameter) {
    p.dimension >= 0 && !p.tag.Unknown? && !p.tag.Void?
  }

  function ParameterText(p: Parameter): string {
    SignatureName(p.tag).Or("") + Brackets(p.dimension)
  }

  /** The types with commas between. */
  function Joined(ps: seq<Parameter>): string {
    if ps == [] then ""
    else
      var n := |ps| - 1;
      Joined(ps[..n]) + (if n == 0 then "" else ",") + ParameterText(ps[n])
  }

  function SignatureText(name: string, ps: seq<Parameter>): string {
    name + "(" + Joined(ps) + ")"
  }

  // ----- reading

  const NAMES: seq<(string, Tag)> :=
    [("int", Integer), ("bool", Boolean), ("str", String), ("bytes", Bytes), ("struct", Struct), ("Address", Address)]

  function TagNamed(word: string, from: nat := 0): Option<Tag>
    requires from <= |NAMES|
    decreases |NAMES| - from
  {
    if from == |NAMES| then None
    else if NAMES[from].0 == word then Some(NAMES[from].1)
    else TagNamed(word, from + 1)
  }

  predicate EndsInBrackets(word: string) {
    |word| >= 2 && word[|word| - 2] == '[' && word[|word| - 1] == ']'
  }

  /** The name of a type, and a pair of brackets for each dimension. */
  function ReadParameter(word: string): Option<Parameter> {
    if EndsInBrackets(word) then
      var p := ReadParameter(word[..|word| - 2]);
      if p.None? then None else Some(Parameter(p.value.tag, p.value.dimension + 1))
    else
      var tag := TagNamed(word);
      if tag.None? then None else Some(Parameter(tag.value, 0))
  }

  /** The place after the last comma; 0 without one. */
  function LastWord(text: string): (at: nat)
    ensures at <= |text| && (at > 0 ==> text[at - 1] == ',')
  {
    if text == "" then 0
    else if text[|text| - 1] == ',' then |text|
    else LastWord(text[..|text| - 1])
  }

  /** The parameters between single commas. */
  function ReadParameters(text: string): Option<seq<Parameter>> {
    var at := LastWord(text);
    var last := ReadParameter(text[at..]);
    if last.None? then None
    else if at == 0 then Some([last.value])
    else
      var init := ReadParameters(text[..at - 1]);
      if init.None? then None else Some(init.value + [last.value])
  }

  /** The text is the name and, in parentheses, these parameters or nothing. */
  predicate Reads(text: string, name: string, ps: seq<Parameter>) {
    var n := |name|;
    && |text| >= n + 2 && text[..n] == name && text[n] == '(' && text[|text| - 1] == ')'
    && var inner := text[n + 1..|text| - 1];
       if ps == [] then inner == "" else ReadParameters(inner) == Some(ps)
  }

  // ----- what is written is read

  lemma {:induction false} LastWordBehind(init: string, word: string)
    requires ',' !in word
    ensures LastWord(init + "," + word) == |init| + 1
    decreases |word|
  {
    var text := init + "," + word;
    if word != "" {
      assert text[..|text| - 1] == init + "," + word[..|word| - 1];
      LastWordBehind(init, word[..|word| - 1]);
    }
  }

  lemma {:induction false} OneWord(word: string)
    requires ',' !in word
    ensures LastWord(word) == 0
  {
    if word != "" {
      OneWord(word[..|word| - 1]);
    }
  }

  lemma NameReads(tag: Tag, name: string)
    requires SignatureName(tag) == Some(name)
    ensures ReadParameter(name) == Some(Parameter(tag, 0)) && ',' !in name
  {
    assert TagNamed(name) == Some(tag) && !EndsInBrackets(name);
  }

  lemma OneMoreDimension(word: string, p: Parameter)
    requires ReadParameter(word) == Some(p)
    ensures ReadParameter(word + "[]") == Some(Parameter(p.tag, p.dimension + 1))
  {
    assert (word + "[]")[..|word|] == word;
  }

  lemma OneMorePair(name: string, dimension: nat)
    requires dimension > 0
    ensures name + Brackets(dimension) == name + Brackets(dimension - 1) + "[]"
  {
  }

  lemma {:induction false} BracketsRead(name: string, tag: Tag, dimension: nat, word: string)
    requires ReadParameter(name) == Some(Parameter(tag, 0)) && word == name + Brackets(dimension)
    ensures ReadParameter(word) == Some(Parameter(tag, dimension))
    decreases dimension
  {
    if dimension == 0 {
      assert word == name;
    } else {
      var fewer := name + Brackets(dimension - 1);
      OneMorePair(name, dimension);
      BracketsRead(name, tag, dimension - 1, fewer);
      OneMoreDimension(fewer, Parameter(tag, dimension - 1));
    }
  }

  lemma {:induction false} NoCommaInBrackets(dimension: int)
    ensures ',' !in Brackets(dimension)
    decreases dimension
  {
    if dimension > 0 {
      NoCommaInBrackets(dimension - 1);
    }
  }

  lemma ParameterReads(p: Parameter)
    requires Named(p)
    ensures ReadParameter(ParameterText(p)) == Some(p) && ',' !in ParameterText(p)
  {
    var name := SignatureName(p.tag).value;
    NameReads(p.tag, name);
    BracketsRead(name, p.tag, p.dimension, ParameterText(p));
    NoCommaInBrackets(p.dimension);
  }

  lemma OneParameterReads(word: string, p: Parameter)
    requires ReadParameter(word) == Some(p) && ',' !in word
    ensures ReadParameters(word) == Some([p])
  {
    OneWord(word);
    assert word[0..] == word;
  }

  lemma NextParameterReads(init: string, ps: seq<Parameter>, word: string, p: Parameter)
    requires ReadParameters(init) == Some(ps) && ReadParameter(word) == Some(p) && ',' !in word
    ensures ReadParameters(init + "," + word) == Some(ps + [p])
  {
    var text := init + "," + word;
    LastWordBehind(init, word);
    assert text[|init| + 1..] == word && text[..|init|] == init;
  }

  lemma {:induction false} JoinedReads(ps: seq<Parameter>)
    requires ps != [] && forall p | p in ps :: Named(p)
    ensures ReadParameters(Joined(ps)) == Some(ps)
  {
    var init, p := ps[..|ps| - 1], ps[|ps| - 1];
    assert ps == init + [p];
    ParameterReads(p);
    if init == [] {
      assert Joined(ps) == ParameterText(p);
      OneParameterReads(ParameterText(p), p);
    } else {
      JoinedReads(init);
      NextParameterReads(Joined(init), init, ParameterText(p), p);
    }
  }

  lemma SignatureReads(name: string, ps: seq<Parameter>)
    requires forall p | p in ps :: Named(p)
    ensures Reads(SignatureText(name, ps), name, ps)
  {
    var text := SignatureText(name, ps);
    assert text[..|name|] == name && text[|name| + 1..|text| - 1] == Joined(ps);
    if ps != [] {
      JoinedReads(ps);
    }
  }

  // ----- which texts are read the same

  lemma {:induction false} DimensionRead(word: string)
    requires ReadParameter(word).Some?
    ensures ReadParameter(word).value.dimension >= 0
    ensures ReadParameter(word).value.dimension > 0 <==> EndsInBrackets(word)
  {
    if EndsInBrackets(word) {
      DimensionRead(word[..|word| - 2]);
    }
  }

  lemma {:induction false} ReadParameterOnce(a: string, b: string)
    requires ReadParameter(a).Some? && ReadParameter(a) == ReadParameter(b)
    ensures a == b
    decreases |a|
  {
    DimensionRead(a);
    DimensionRead(b);
    if EndsInBrackets(a) {
      ReadParameterOnce(a[..|a| - 2], b[..|b| - 2]);
      assert a == a[..|a| - 2] + ['[', ']'] && b == b[..|b| - 2] + ['[', ']'];
    }
  }

  /** The last parameter, and those before it, if there is a comma. */
  lemma ReadLast(text: string)
    requires ReadParameters(text).Some?
    ensures var r, at := ReadParameters(text).value, LastWord(text);
            && |r| > 0 && ReadParameter(text[at..]) == Some(r[|r| - 1])
            && (at == 0 ==> |r| == 1)
            && (at > 0 ==> ReadParameters(text[..at - 1]) == Some(r[..|r| - 1])
                           && text == text[..at - 1] + "," + text[at..])
  {
    var at := LastWord(text);
    if at > 0 {
      CommaBetween(text, at);
      assert ReadParameters(text).value == ReadParameters(text[..at - 1]).value + [ReadParameter(text[at..]).value];
    }
  }

  lemma CommaBetween(text: string, at: nat)
    requires 0 < at <= |text| && text[at - 1] == ','
    ensures text == text[..at - 1] + "," + text[at..]
  {
  }

  lemma {:induction false} ReadParametersOnce(a: string, b: string)
    requires ReadParameters(a).Some? && ReadParameters(a) == ReadParameters(b)
    ensures a == b
    decreases |a|
  {
    var at, bt := LastWord(a), LastWord(b);
    ReadLast(a);
    ReadLast(b);
    ReadParameterOnce(a[at..], b[bt..]);
    if at > 0 {
      ReadLast(a[..at - 1]);
      if bt > 0 {
        ReadParametersOnce(a[..at - 1], b[..bt - 1]);
      }
    } else if bt > 0 {
      ReadLast(b[..bt - 1]);
    }
  }

  lemma NothingRead()
    ensures ReadParameters("").None?
  {
    assert ReadParameter("").None?;
  }

  /** Without these a name ends where the parameters begin. */
  predicate PlainName(name: string) {
    forall c | c in name :: c != ',' && c != '(' && c != ')' && c != '[' && c != ']'
  }

  lemma NameEnds(text: string, name: string, name': string)
    requires PlainName(name) && PlainName(name') && |name| <= |name'| < |text|
    requires text[..|name|] == name && text[|name|] == '(' && text[..|name'|] == name' && text[|name'|] == '('
    ensures name == name'
  {
    if |name| < |name'| {
      InFront(text, |name'|, |name|);
    }
  }

  lemma InFront(text: string, n: nat, k: nat)
    requires k < n <= |text|
    ensures text[k] in text[..n]
  {
    assert text[..n][k] == text[k];
  }

  lemma TextOf(text: string, name: string, ps: seq<Parameter>)
    requires Reads(text, name, ps)
    ensures text == name + ("(" + (text[|name| + 1..|text| - 1] + ")"))
  {
    assert text[|name|..] == "(" + text[|name| + 1..];
    assert text[|name| + 1..] == text[|name| + 1..|text| - 1] + ")";
    assert text == text[..|name|] + text[|name|..];
  }

  lemma SameText(text: string, name: string, ps: seq<Parameter>, text': string)
    requires Reads(text, name, ps) && Reads(text', name, ps)
    ensures text == text'
  {
    if ps != [] {
      ReadParametersOnce(text[|name| + 1..|text| - 1], text'[|name| + 1..|text'| - 1]);
    }
    TextOf(text, name, ps);
    TextOf(text', name, ps);
  }

  /** Events with plain names have the same signature exactly when they have the same name and their
      parameters the same tags and dimensions. */
  lemma SignaturesTellEventsApart(text: string, name: string, ps: seq<Parameter>, text': string, name': string,
                                  ps': seq<Parameter>)
    requires Reads(text, name, ps) && Reads(text', name', ps') && PlainName(name) && PlainName(name')
    ensures text == text' <==> name == name' && ps == ps'
  {
    NothingRead();
    if text == text' {
      if |name| <= |name'| {
        NameEnds(text, name, name');
      } else {
        NameEnds(text, name', name);
      }
    } else if name == name' && ps == ps' {
      SameText(text, name, ps, text');
    }
  }
}
