/**
 Templates (ox-core/src/interpolation.rs, and interpolate_event_template and build_vars in
 ox-core/src/workflow.rs). A template is read as a list of literal characters and braced names; each
 character-iterator loop is proved to compute a function of that list.
 */
module Interpolation {
  import opened Prelude

  const SECRET := "secret."
  const EVENT := "event."

  datatype Error = MissingField(name: string) | MissingSecret(secret: string) | MissingEventField(path: string)

  type Outcome = Result<string, Error>

  datatype Context = Context(values: map<string, string>, secrets: map<string, string>)

  datatype Token = Lit(c: char) | Ref(name: string)

  /** How far a name reaches: up to the first closing brace, or the end if there is none. */
  function NameLength(s: string): (n: nat)
    ensures n <= |s| && '}' !in s[..n] && (n < |s| ==> s[n] == '}')
  {
    if s == [] || s[0] == '}' then 0
    else
      var n := NameLength(s[1..]);
      assert s[..n + 1] == [s[0]] + s[1..][..n];
      n + 1
  }

  /** What follows a name: the closing brace is consumed too. */
  function AfterName(s: string): (r: string)
    ensures |r| <= |s|
  {
    var n := NameLength(s);
    if n < |s| then s[n + 1..] else []
  }

  function Parse(template: string): seq<Token>
    decreases |template|
  {
    if template == [] then []
    else
      var rest := template[1..];
      if template[0] == '{' then [Ref(rest[..NameLength(rest)])] + Parse(AfterName(rest))
      else [Lit(template[0])] + Parse(rest)
  }

  predicate HasPrefix(s: string, prefix: string) {
    prefix <= s
  }

  function Prepend(front: string, rest: Outcome): Outcome {
    if rest.Ok? then Ok(front + rest.value) else rest
  }

  function Lookup(ctx: Context, name: string): Outcome {
    if HasPrefix(name, SECRET) then
      var secret := name[|SECRET|..];
      if secret in ctx.secrets then Ok(ctx.secrets[secret]) else Err(MissingSecret(secret))
    else if name in ctx.values then Ok(ctx.values[name])
    else Err(MissingField(name))
  }

  /** The meaning of a template: every name replaced, or the error of the first name that has no value. */
  function Render(ctx: Context, tokens: seq<Token>): Outcome {
    if tokens == [] then Ok("")
    else match tokens[0]
      case Lit(c) => Prepend([c], Render(ctx, tokens[1..]))
      case Ref(name) =>
        match Lookup(ctx, name)
        case Ok(value) => Prepend(value, Render(ctx, tokens[1..]))
        case Err(e) => Err(e)
  }

  function EventLookup(fields: map<string, string>, name: string): Outcome {
    if !HasPrefix(name, EVENT) then Ok("{" + name + "}")
    else if name in fields then Ok(fields[name])
    else Err(MissingEventField(name))
  }

  /** The first stage: event names replaced, every other name put back in braces. */
  function RenderEvent(fields: map<string, string>, tokens: seq<Token>): Outcome {
    if tokens == [] then Ok("")
    else match tokens[0]
      case Lit(c) => Prepend([c], RenderEvent(fields, tokens[1..]))
      case Ref(name) =>
        match EventLookup(fields, name)
        case Ok(value) => Prepend(value, RenderEvent(fields, tokens[1..]))
        case Err(e) => Err(e)
  }

  // ── The loops ───────────────────────────────────────────────────────

  /** Takes characters up to a closing brace and consumes the brace. */
  method TakeName(s: string, from: nat) returns (name: string, next: nat)
    requires from <= |s|
    ensures from <= next <= |s|
    ensures name == s[from..][..NameLength(s[from..])] && s[next..] == AfterName(s[from..])
  {
    next := from;
    while next < |s| && s[next] != '}'
      invariant from <= next <= |s|
      invariant NameLength(s[from..]) == next - from + NameLength(s[next..])
    {
      next := next + 1;
    }
    name := s[from..next];
    assert name == s[from..][..next - from];
    if next < |s| {
      next := next + 1;
    }
  }

  lemma PrependNothing(rest: Outcome)
    ensures Prepend("", rest) == rest
  {
    if rest.Ok? {
      assert "" + rest.value == rest.value;
    }
  }

  lemma PrependTwice(a: string, b: string, rest: Outcome)
    ensures Prepend(a, Prepend(b, rest)) == Prepend(a + b, rest)
  {
    if rest.Ok? {
      assert a + (b + rest.value) == (a + b) + rest.value;
    }
  }

  method Interpolate(ctx: Context, template: string) returns (r: Outcome)
    ensures r == Render(ctx, Parse(template))
  {
    var result, i := "", 0;
    assert template[0..] == template;
    PrependNothing(Render(ctx, Parse(template)));
    while i < |template|
      invariant 0 <= i <= |template|
      invariant Render(ctx, Parse(template)) == Prepend(result, Render(ctx, Parse(template[i..])))
    {
      var ch := template[i];
      ghost var rest := template[i..];
      assert rest[1..] == template[i + 1..];
      if ch == '{' {
        var name, next := TakeName(template, i + 1);
        var value := Lookup(ctx, name);
        if value.Err? {
          return value;
        }
        PrependTwice(result, value.value, Render(ctx, Parse(template[next..])));
        result, i := result + value.value, next;
      } else {
        PrependTwice(result, [ch], Render(ctx, Parse(template[i + 1..])));
        result, i := result + [ch], i + 1;
      }
    }
    assert result + "" == result;
    return Ok(result);
  }

  method InterpolateEventTemplate(template: string, fields: map<string, string>) returns (r: Outcome)
    ensures r == RenderEvent(fields, Parse(template))
  {
    var result, i := "", 0;
    assert template[0..] == template;
    PrependNothing(RenderEvent(fields, Parse(template)));
    while i < |template|
      invariant 0 <= i <= |template|
      invariant RenderEvent(fields, Parse(template)) == Prepend(result, RenderEvent(fields, Parse(template[i..])))
    {
      var ch := template[i];
      ghost var rest := template[i..];
      assert rest[1..] == template[i + 1..];
      if ch == '{' {
        var path, next := TakeName(template, i + 1);
        var value := EventLookup(fields, path);
        if value.Err? {
          return value;
        }
        PrependTwice(result, value.value, RenderEvent(fields, Parse(template[next..])));
        result, i := result + value.value, next;
      } else {
        PrependTwice(result, [ch], RenderEvent(fields, Parse(template[i + 1..])));
        result, i := result + [ch], i + 1;
      }
    }
    assert result + "" == result;
    return Ok(result);
  }

  function SecretIn(token: Token): seq<string> {
    if token.Ref? && HasPrefix(token.name, SECRET) then [token.name[|SECRET|..]] else []
  }

  /** The secrets a list of tokens names, in order. */
  function SecretNames(tokens: seq<Token>): seq<string> {
    if tokens == [] then [] else SecretIn(tokens[0]) + SecretNames(tokens[1..])
  }

  /** Reading one token of a template, given where the text goes on. */
  lemma SecretsOfNext(s: string, rest: string)
    requires s != [] && rest == if s[0] == '{' then AfterName(s[1..]) else s[1..]
    ensures SecretNames(Parse(s)) == SecretIn(Parse(s)[0]) + SecretNames(Parse(rest))
  {
    assert Parse(s)[1..] == Parse(rest);
  }

  method CollectSecretRefs(template: string) returns (refs: seq<string>)
    ensures refs == SecretNames(Parse(template))
  {
    refs := [];
    var i := 0;
    assert template[0..] == template;
    while i < |template|
      invariant 0 <= i <= |template|
      invariant SecretNames(Parse(template)) == refs + SecretNames(Parse(template[i..]))
    {
      ghost var s := template[i..];
      assert s[1..] == template[i + 1..];
      var found, next := [], i + 1;
      if template[i] == '{' {
        var name;
        name, next := TakeName(template, i + 1);
        if HasPrefix(name, SECRET) {
          found := [name[|SECRET|..]];
        }
      }
      SecretsOfNext(s, template[next..]);
      Reassociate(refs, found, SecretNames(Parse(template[next..])));
      refs, i := refs + found, next;
    }
  }

  /** Resolves a trigger's vars against an event; one missing field fails the whole block. */
  method BuildVars(vars: map<string, string>, fields: map<string, string>) returns (r: Result<map<string, string>, Error>)
    ensures r.Ok? ==> r.value.Keys == vars.Keys
                      && forall k :: k in vars ==> RenderEvent(fields, Parse(vars[k])) == Ok(r.value[k])
    ensures r.Err? ==> exists k :: k in vars && RenderEvent(fields, Parse(vars[k])) == Err(r.error)
  {
    var out: map<string, string> := map[];
    var names := Keys(vars);
    for i := 0 to |names|
      invariant forall k :: k in out <==> k in names[..i]
      invariant forall k :: k in out ==> RenderEvent(fields, Parse(vars[k])) == Ok(out[k])
    {
      var value := InterpolateEventTemplate(vars[names[i]], fields);
      if value.Err? {
        return Err(value.error);
      }
      out := out[names[i] := value.value];
    }
    assert out.Keys == vars.Keys by {
      assert names[..|names|] == names;
    }
    return Ok(out);
  }

  // ── Staging ─────────────────────────────────────────────────────────

  /** One context holding both: event names mean the event's fields, and nothing else. */
  function Merged(ctx: Context, fields: map<string, string>): Context {
    ctx.(values := (map k | k in ctx.values && !HasPrefix(k, EVENT) :: ctx.values[k])
                   + (map p | p in fields && HasPrefix(p, EVENT) :: fields[p]))
  }

  lemma MergedLookup(ctx: Context, fields: map<string, string>, name: string)
    ensures Lookup(Merged(ctx, fields), name)
            == if !HasPrefix(name, EVENT) then Lookup(ctx, name)
               else if name in fields then Ok(fields[name]) else Err(MissingField(name))
  {
    if HasPrefix(name, EVENT) {
      assert name[0] == EVENT[0] != SECRET[0];
    }
  }

  /** Event fields first, then everything else. */
  function Staged(ctx: Context, fields: map<string, string>, template: string): Outcome {
    match RenderEvent(fields, Parse(template))
    case Ok(text) => Render(ctx, Parse(text))
    case Err(e) => Err(e)
  }

  /** No event field that a template can name has an opening brace in its value. */
  ghost predicate Plain(fields: map<string, string>) {
    forall p :: p in fields && HasPrefix(p, EVENT) && '}' !in p ==> '{' !in fields[p]
  }

  predicate ReadsBack(token: Token) {
    match token
    case Lit(c) => c != '{'
    case Ref(name) => '}' !in name
  }

  ghost predicate AllReadBack(tokens: seq<Token>) {
    forall i :: 0 <= i < |tokens| ==> ReadsBack(tokens[i])
  }

  lemma {:induction false} ParsedReadsBack(template: string)
    ensures AllReadBack(Parse(template))
    decreases |template|
  {
    if template != [] {
      var rest := template[1..];
      ParsedReadsBack(if template[0] == '{' then AfterName(rest) else rest);
    }
  }

  function Lits(s: string): seq<Token> {
    if s == [] then [] else [Lit(s[0])] + Lits(s[1..])
  }

  lemma {:induction false} ParseLits(v: string, rest: string)
    requires '{' !in v
    ensures Parse(v + rest) == Lits(v) + Parse(rest)
  {
    if v == [] {
      assert v + rest == rest;
    } else {
      assert (v + rest)[1..] == v[1..] + rest;
      ParseLits(v[1..], rest);
    }
  }

  lemma {:induction false} NameEndsAtBrace(name: string, rest: string)
    requires '}' !in name
    ensures NameLength(name + "}" + rest) == |name|
  {
    var s := name + "}" + rest;
    if name != [] {
      NameEndsAtBrace(name[1..], rest);
      assert s[1..] == name[1..] + "}" + rest;
    }
  }

  lemma ParseBraced(name: string, rest: string)
    requires '}' !in name
    ensures Parse("{" + name + "}" + rest) == [Ref(name)] + Parse(rest)
  {
    var inner := name + "}" + rest;
    NameEndsAtBrace(name, rest);
    assert ("{" + name + "}" + rest)[1..] == inner;
    assert inner[..|name|] == name && inner[|name| + 1..] == rest;
  }

  function SubstitutedOne(fields: map<string, string>, token: Token): seq<Token> {
    if token.Ref? && HasPrefix(token.name, EVENT) && token.name in fields then Lits(fields[token.name]) else [token]
  }

  /** Event names replaced by the characters of their values. */
  function Substituted(fields: map<string, string>, tokens: seq<Token>): seq<Token> {
    if tokens == [] then [] else SubstitutedOne(fields, tokens[0]) + Substituted(fields, tokens[1..])
  }

  /** The first stage's text reads back as the template with its event names replaced. */
  lemma {:induction false} StageOneReadsBack(fields: map<string, string>, tokens: seq<Token>)
    requires Plain(fields) && AllReadBack(tokens) && RenderEvent(fields, tokens).Ok?
    ensures Parse(RenderEvent(fields, tokens).value) == Substituted(fields, tokens)
  {
    if tokens != [] {
      StageOneReadsBack(fields, tokens[1..]);
      var rest := RenderEvent(fields, tokens[1..]).value;
      match tokens[0]
      case Lit(c) =>
        ParseLits([c], rest);
        assert Lits([c]) == [Lit(c)];
      case Ref(name) =>
        if HasPrefix(name, EVENT) {
          ParseLits(fields[name], rest);
        } else {
          ParseBraced(name, rest);
        }
    }
  }

  lemma {:induction false} RenderLits(ctx: Context, v: string, tokens: seq<Token>)
    ensures Render(ctx, Lits(v) + tokens) == Prepend(v, Render(ctx, tokens))
  {
    if v == [] {
      assert Lits(v) + tokens == tokens;
      PrependNothing(Render(ctx, tokens));
    } else {
      var all := Lits(v) + tokens;
      assert all[0] == Lit(v[0]) && all[1..] == Lits(v[1..]) + tokens;
      RenderLits(ctx, v[1..], tokens);
      PrependTwice([v[0]], v[1..], Render(ctx, tokens));
      assert [v[0]] + v[1..] == v;
    }
  }

  lemma {:induction false} RenderSubstituted(ctx: Context, fields: map<string, string>, tokens: seq<Token>)
    requires RenderEvent(fields, tokens).Ok?
    ensures Render(ctx, Substituted(fields, tokens)) == Render(Merged(ctx, fields), tokens)
  {
    if tokens != [] {
      RenderSubstituted(ctx, fields, tokens[1..]);
      var rest := Substituted(fields, tokens[1..]);
      if tokens[0].Ref? && HasPrefix(tokens[0].name, EVENT) {
        RenderLits(ctx, fields[tokens[0].name], rest);
        MergedLookup(ctx, fields, tokens[0].name);
      } else {
        assert ([tokens[0]] + rest)[1..] == rest;
        if tokens[0].Ref? {
          MergedLookup(ctx, fields, tokens[0].name);
        }
      }
    }
  }

  /** An event name without a value fails the first stage, and the single pass too. */
  lemma {:induction false} MissingFieldFailsBoth(ctx: Context, fields: map<string, string>, tokens: seq<Token>)
    requires RenderEvent(fields, tokens).Err?
    ensures Render(Merged(ctx, fields), tokens).Err?
  {
    assert tokens != [];
    match tokens[0]
    case Lit(_) => MissingFieldFailsBoth(ctx, fields, tokens[1..]);
    case Ref(name) =>
      MergedLookup(ctx, fields, name);
      if EventLookup(fields, name).Ok? {
        MissingFieldFailsBoth(ctx, fields, tokens[1..]);
      }
  }

  /** The two stages and the single pass agree on the text, and on the error unless an event field is missing. */
  ghost predicate Agrees(ctx: Context, fields: map<string, string>, template: string) {
    var single := Render(Merged(ctx, fields), Parse(template));
    if RenderEvent(fields, Parse(template)).Ok? then Staged(ctx, fields, template) == single
    else Staged(ctx, fields, template).Err? && single.Err?
  }

  lemma StagingKeepsMeaning(ctx: Context, fields: map<string, string>, template: string)
    requires Plain(fields)
    ensures Agrees(ctx, fields, template)
  {
    var tokens := Parse(template);
    ParsedReadsBack(template);
    if RenderEvent(fields, tokens).Ok? {
      StageOneReadsBack(fields, tokens);
      RenderSubstituted(ctx, fields, tokens);
    } else {
      MissingFieldFailsBoth(ctx, fields, tokens);
    }
  }

  /** A field value with an opening brace breaks the template that is just its name, in an empty context. */
  lemma BraceBreaksStaging(fields: map<string, string>, p: string)
    requires p in fields && HasPrefix(p, EVENT) && '}' !in p && '{' in fields[p]
    ensures !Agrees(Context(map[], map[]), fields, "{" + p + "}")
  {
    var ctx, value := Context(map[], map[]), fields[p];
    assert "{" + p + "}" + "" == "{" + p + "}";
    ParseBraced(p, "");
    assert Parse("{" + p + "}") == [Ref(p)];
    assert value + "" == value;
    assert RenderEvent(fields, [Ref(p)]) == Ok(value);
    assert Render(Merged(ctx, fields), [Ref(p)]) == Ok(value);
    BraceNeedsAValue(value);
  }

  lemma {:induction false} BraceNeedsAValue(text: string)
    requires '{' in text
    ensures Render(Context(map[], map[]), Parse(text)).Err?
  {
    if text[0] != '{' {
      assert text == [text[0]] + text[1..];
      BraceNeedsAValue(text[1..]);
      assert Parse(text)[1..] == Parse(text[1..]);
    }
  }

  /** Staging agrees with the single pass on every template and context exactly when the fields are plain. */
  lemma StagingAgreesIff(fields: map<string, string>)
    ensures Plain(fields) <==> forall ctx, template :: Agrees(ctx, fields, template)
  {
    if Plain(fields) {
      forall ctx, template ensures Agrees(ctx, fields, template) {
        StagingKeepsMeaning(ctx, fields, template);
      }
    } else {
      var p :| p in fields && HasPrefix(p, EVENT) && '}' !in p && '{' in fields[p];
      BraceBreaksStaging(fields, p);
    }
  }

  // ── Secrets ─────────────────────────────────────────────────────────

  /** Only the collected secrets matter to a template. */
  lemma {:induction false} OnlyCollectedSecretsMatter(ctx: Context, other: Context, tokens: seq<Token>)
    requires ctx.values == other.values
    requires forall n :: n in SecretNames(tokens) ==> Lookup(ctx, SECRET + n) == Lookup(other, SECRET + n)
    ensures Render(ctx, tokens) == Render(other, tokens)
  {
    if tokens != [] {
      var token := tokens[0];
      if SecretIn(token) != [] {
        var n := token.name[|SECRET|..];
        assert n in SecretNames(tokens);
        assert SECRET + n == token.name;
      }
      assert forall n :: n in SecretNames(tokens[1..]) ==> n in SecretNames(tokens);
      OnlyCollectedSecretsMatter(ctx, other, tokens[1..]);
    }
  }

  /** A plain event adds no secret references and hides none. */
  lemma {:induction false} StageOneKeepsSecrets(fields: map<string, string>, tokens: seq<Token>)
    requires Plain(fields) && AllReadBack(tokens) && RenderEvent(fields, tokens).Ok?
    ensures SecretNames(Parse(RenderEvent(fields, tokens).value)) == SecretNames(tokens)
  {
    StageOneReadsBack(fields, tokens);
    SubstitutedSecrets(fields, tokens);
  }

  lemma {:induction false} SubstitutedSecrets(fields: map<string, string>, tokens: seq<Token>)
    ensures SecretNames(Substituted(fields, tokens)) == SecretNames(tokens)
  {
    if tokens != [] {
      SubstitutedSecrets(fields, tokens[1..]);
      var front, rest := SubstitutedOne(fields, tokens[0]), Substituted(fields, tokens[1..]);
      if front == [tokens[0]] {
        assert (front + rest)[1..] == rest;
      } else {
        LitsNameNoSecret(fields[tokens[0].name], rest);
        assert tokens[0].name[0] == EVENT[0] != SECRET[0];
      }
    }
  }

  lemma {:induction false} LitsNameNoSecret(v: string, rest: seq<Token>)
    ensures SecretNames(Lits(v) + rest) == SecretNames(rest)
  {
    if v == [] {
      assert Lits(v) + rest == rest;
    } else {
      assert (Lits(v) + rest)[1..] == Lits(v[1..]) + rest;
      LitsNameNoSecret(v[1..], rest);
    }
  }
}
