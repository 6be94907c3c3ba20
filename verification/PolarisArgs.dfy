/** The read-only argv normal form and the policy resource read from it (src/loro/polaris.py, src/loro/resources.py). */
module PolarisArgs {
  import opened Common

  datatype Error = BadArguments | NotPermitted
  datatype Outcome = Accepted(argv: seq<string>) | Refused(error: Error)

  /** The options each read-only resource may take. */
  function ReadonlyOptions(resource: string): Option<set<string>> {
    match resource
    case "catalogs" => Some({})
    case "namespaces" => Some({"catalog"})
    case "tables" => Some({"catalog", "namespace"})
    case "views" => Some({"catalog", "namespace"})
    case "principal-roles" => Some({})
    case "catalog-roles" => Some({"catalog"})
    case "privileges" => Some({"catalog", "catalog-role"})
    case "policies" => Some({"catalog"})
    case "applicable-policies" => Some({"catalog", "namespace", "resource"})
    case _ => None
  }

  const READONLY_ACTIONS: set<string> := {"list", "get", "show", "describe"}

  predicate Dashed(s: string) {
    s != "" && s[0] == '-'
  }

  predicate DoubleDashed(s: string) {
    |s| > 1 && s[0] == '-' && s[1] == '-'
  }

  /** Where the first `=` stands, or the length when there is none. */
  function EqualsAt(s: string): (n: nat)
    ensures n <= |s| && '=' !in s[..n] && (n < |s| ==> s[n] == '=')
  {
    if s == "" || s[0] == '=' then 0
    else
      var n := EqualsAt(s[1..]);
      assert s[..n + 1] == [s[0]] + s[1..][..n];
      n + 1
  }

  lemma {:induction false} EqualsAtFinds(name: string, value: string)
    requires '=' !in name
    ensures EqualsAt(name) == |name| && EqualsAt(name + "=" + value) == |name|
  {
    if name != "" {
      EqualsAtFinds(name[1..], value);
      assert name[0] in name;
      assert (name + "=" + value)[1..] == name[1..] + "=" + value;
    }
  }

  // ---- What an argument list says ----

  /** `--name=value`, `--name value`, or a value on its own. */
  datatype Piece =
    | Inline(name: string, value: string)
    | Spaced(name: string, value: string)
    | Positional(text: string)

  predicate Legal(p: Piece, allowed: set<string>) {
    match p
    case Positional(text) => text != "" && !Dashed(text)
    case _ => p.name in allowed && p.value != "" && !Dashed(p.value)
  }

  predicate AllLegal(pieces: seq<Piece>, allowed: set<string>) {
    forall p :: p in pieces ==> Legal(p, allowed)
  }

  function Size(p: Piece): nat {
    if p.Spaced? then 2 else 1
  }

  function Written(p: Piece): (tokens: seq<string>)
    ensures |tokens| == Size(p)
  {
    match p
    case Inline(name, value) => ["--" + name + "=" + value]
    case Spaced(name, value) => ["--" + name, value]
    case Positional(text) => [text]
  }

  function Spelled(pieces: seq<Piece>): seq<string> {
    if pieces == [] then [] else Written(pieces[0]) + Spelled(pieces[1..])
  }

  function OptionPart(p: Piece): seq<string> {
    if p.Positional? then [] else ["--" + p.name, p.value]
  }

  function PositionalPart(p: Piece): seq<string> {
    if p.Positional? then [p.text] else []
  }

  /** The options in order, each as two tokens. */
  function OptionTokens(pieces: seq<Piece>): seq<string> {
    if pieces == [] then [] else OptionPart(pieces[0]) + OptionTokens(pieces[1..])
  }

  function Positionals(pieces: seq<Piece>): seq<string> {
    if pieces == [] then [] else PositionalPart(pieces[0]) + Positionals(pieces[1..])
  }

  /** The normal form: resource, action, options in order, then `--` and the positional if there is one. */
  function NormalForm(resource: string, action: string, pieces: seq<Piece>): seq<string> {
    [resource, action] + OptionTokens(pieces)
    + (if Positionals(pieces) == [] then [] else ["--"] + Positionals(pieces))
  }

  // ---- Reading ----

  predicate BadValue(value: string) {
    value == "" || Dashed(value)
  }

  /** One turn of the loop in `normalize_readonly_args`. */
  function Head(rest: seq<string>, allowed: set<string>): (p: Option<Piece>)
    requires rest != []
    ensures p.Some? ==> Size(p.value) <= |rest|
  {
    var item := rest[0];
    if item == "--" then None
    else if Dashed(item) then
      if !DoubleDashed(item) then None
      else
        var n := EqualsAt(item[2..]);
        var name := item[2..][..n];
        if name !in allowed then None
        else if n < |item[2..]| then
          var value := item[2..][n + 1..];
          if BadValue(value) then None else Some(Inline(name, value))
        else if |rest| < 2 || BadValue(rest[1]) then None
        else Some(Spaced(name, rest[1]))
    else Some(Positional(item))
  }

  function Prepend(pieces: seq<Piece>, rest: Option<seq<Piece>>): Option<seq<Piece>> {
    match rest
    case None => None
    case Some(more) => Some(pieces + more)
  }

  function Read(rest: seq<string>, allowed: set<string>): Option<seq<Piece>> {
    if rest == [] then Some([])
    else
      var p := Head(rest, allowed);
      if p.None? then None else Prepend([p.value], Read(rest[Size(p.value)..], allowed))
  }

  function Normalized(args: seq<string>): Outcome {
    if |args| < 2 || "" in args then Refused(BadArguments)
    else if ReadonlyOptions(args[0]).None? || args[1] !in READONLY_ACTIONS then Refused(NotPermitted)
    else
      var pieces := Read(args[2..], ReadonlyOptions(args[0]).value);
      if pieces.None? || |Positionals(pieces.value)| > 1 then Refused(NotPermitted)
      else Accepted(NormalForm(args[0], args[1], pieces.value))
  }

  /** An argument list is badly formed, rather than not permitted, exactly when it is short or has an empty item. */
  lemma BadExactlyWhen(args: seq<string>)
    ensures Normalized(args) == Refused(BadArguments) <==> |args| < 2 || exists i :: 0 <= i < |args| && args[i] == ""
  {
  }

  /** The read-only resources, and for each option the resources that take it. */
  lemma WhoTakesWhat(resource: string, option: string)
    ensures ReadonlyOptions(resource).Some? <==>
              resource in {"catalogs", "namespaces", "tables", "views", "principal-roles", "catalog-roles", "privileges",
                           "policies", "applicable-policies"}
    ensures ReadonlyOptions(resource).Some? && option in ReadonlyOptions(resource).value <==>
              || (option == "catalog" && ReadonlyOptions(resource).Some? && resource !in {"catalogs", "principal-roles"})
              || (option == "namespace" && resource in {"tables", "views", "applicable-policies"})
              || (option == "catalog-role" && resource == "privileges")
              || (option == "resource" && resource == "applicable-policies")
  {
  }

  predicate Plain(allowed: set<string>) {
    forall name :: name in allowed ==> name != "" && '=' !in name
  }

  lemma OptionsArePlain(resource: string)
    ensures ReadonlyOptions(resource).Some? ==> Plain(ReadonlyOptions(resource).value)
  {
    assert '=' !in "catalog" && '=' !in "namespace" && '=' !in "catalog-role" && '=' !in "resource";
  }

  lemma HeadReads(p: Piece, tail: seq<string>, allowed: set<string>)
    requires Legal(p, allowed) && Plain(allowed)
    ensures Head(Written(p) + tail, allowed) == Some(p)
  {
    match p {
      case Inline(name, value) => InlineReads(name, value, tail, allowed);
      case Spaced(name, value) => SpacedReads(name, value, tail, allowed);
      case Positional(text) =>
    }
  }

  lemma InlineReads(name: string, value: string, tail: seq<string>, allowed: set<string>)
    requires Legal(Inline(name, value), allowed) && Plain(allowed)
    ensures Head(["--" + name + "=" + value] + tail, allowed) == Some(Inline(name, value))
  {
    hide EqualsAt;
    EqualsAtFinds(name, value);
    var item := "--" + name + "=" + value;
    assert item[2..] == name + "=" + value;
    assert item[2..][..|name|] == name && item[2..][|name| + 1..] == value;
  }

  lemma SpacedReads(name: string, value: string, tail: seq<string>, allowed: set<string>)
    requires Legal(Spaced(name, value), allowed) && Plain(allowed)
    ensures Head(["--" + name, value] + tail, allowed) == Some(Spaced(name, value))
  {
    hide EqualsAt;
    EqualsAtFinds(name, "");
    var item := "--" + name;
    assert item[2..] == name && item[2..][..|name|] == name;
  }

  lemma NoneAdded<T>(tokens: seq<T>)
    ensures tokens + [] == tokens
  {
  }

  lemma JoinsAgain(item: string)
    requires DoubleDashed(item)
    ensures var body := item[2..];
            var n := EqualsAt(body);
            item == "--" + body[..n] + (if n < |body| then "=" + body[n + 1..] else "")
  {
    hide EqualsAt;
    var body := item[2..];
    var n := EqualsAt(body);
    var tail := if n < |body| then "=" + body[n + 1..] else "";
    assert item == "--" + body;
    if n < |body| {
      CutAtEquals(body, n);
    } else {
      NoneAdded(body);
    }
    Prefixed("--", body[..n], tail);
  }

  lemma CutAtEquals(body: string, n: nat)
    requires n < |body| && body[n] == '='
    ensures body == body[..n] + ("=" + body[n + 1..])
  {
  }

  lemma Prefixed(a: string, b: string, c: string)
    ensures a + (b + c) == a + b + c
  {
  }

  lemma HeadIsLegal(rest: seq<string>, allowed: set<string>)
    requires rest != [] && "" !in rest && Head(rest, allowed).Some?
    ensures var p := Head(rest, allowed).value; Legal(p, allowed) && Written(p) == rest[..Size(p)]
  {
    var item, p := rest[0], Head(rest, allowed).value;
    assert item in rest;
    match p {
      case Inline(name, value) =>
        JoinsAgain(item);
        assert "--" + name + "=" + value == "--" + name + ("=" + value);
      case Spaced(name, value) =>
        JoinsAgain(item);
        NoneAdded("--" + name);
        assert value in rest;
      case Positional(text) =>
    }
  }

  // ---- Reading is the inverse of spelling ----

  lemma {:induction false} ReadsWhatIsSpelled(pieces: seq<Piece>, allowed: set<string>)
    requires AllLegal(pieces, allowed) && Plain(allowed)
    ensures Read(Spelled(pieces), allowed) == Some(pieces)
  {
    if pieces != [] {
      var p, tail := pieces[0], Spelled(pieces[1..]);
      assert p in pieces && AllLegal(pieces[1..], allowed);
      HeadReads(p, tail, allowed);
      ReadsWhatIsSpelled(pieces[1..], allowed);
      assert (Written(p) + tail)[Size(p)..] == tail;
      assert [p] + pieces[1..] == pieces;
    }
  }

  lemma {:induction false} SpellsWhatIsRead(rest: seq<string>, allowed: set<string>)
    requires "" !in rest && Read(rest, allowed).Some?
    ensures var pieces := Read(rest, allowed).value; AllLegal(pieces, allowed) && Spelled(pieces) == rest
    decreases |rest|
  {
    hide Head, Legal, Written;
    if rest != [] {
      var p := Head(rest, allowed).value;
      var tail := rest[Size(p)..];
      HeadIsLegal(rest, allowed);
      assert Prepend([p], Read(tail, allowed)).Some?;
      SpellsWhatIsRead(tail, allowed);
      var more := Read(tail, allowed).value;
      assert rest == rest[..Size(p)] + tail;
      assert ([p] + more)[1..] == more;
    }
  }

  /** A resource and an action that are both read-only. */
  predicate IsReadonly(args: seq<string>) {
    |args| >= 2 && ReadonlyOptions(args[0]).Some? && args[1] in READONLY_ACTIONS
  }

  /** The arguments spell these legal pieces, of which at most one is a positional. */
  predicate Spells(args: seq<string>, pieces: seq<Piece>)
    requires IsReadonly(args)
  {
    AllLegal(pieces, ReadonlyOptions(args[0]).value) && args[2..] == Spelled(pieces) && |Positionals(pieces)| <= 1
  }

  /** What is accepted, and as what, without reference to how the arguments are scanned. */
  lemma AcceptedExactlyWhen(args: seq<string>, argv: seq<string>)
    ensures Normalized(args) == Accepted(argv) <==>
            IsReadonly(args) && exists pieces :: Spells(args, pieces) && argv == NormalForm(args[0], args[1], pieces)
  {
    if Normalized(args) == Accepted(argv) {
      var pieces := AcceptedIsSpelled(args);
    }
    if IsReadonly(args) {
      forall pieces | Spells(args, pieces)
        ensures Normalized(args) == Accepted(NormalForm(args[0], args[1], pieces))
      {
        SpelledIsAccepted(args, pieces);
      }
    }
  }

  lemma AcceptedIsSpelled(args: seq<string>) returns (pieces: seq<Piece>)
    requires Normalized(args).Accepted?
    ensures IsReadonly(args) && Spells(args, pieces)
    ensures Normalized(args).argv == NormalForm(args[0], args[1], pieces)
  {
    var allowed := ReadonlyOptions(args[0]).value;
    pieces := Read(args[2..], allowed).value;
    SpellsWhatIsRead(args[2..], allowed);
  }

  lemma SpelledIsAccepted(args: seq<string>, pieces: seq<Piece>)
    requires IsReadonly(args) && Spells(args, pieces)
    ensures Normalized(args) == Accepted(NormalForm(args[0], args[1], pieces))
  {
    hide Read, Spelled, NormalForm, AllLegal, Plain;
    var allowed := ReadonlyOptions(args[0]).value;
    OptionsArePlain(args[0]);
    ReadsWhatIsSpelled(pieces, allowed);
    TokensAreProper(pieces, allowed);
    NoneEmpty(args);
  }

  lemma NoneEmpty(args: seq<string>)
    requires |args| >= 2 && args[0] != "" && args[1] != "" && "" !in args[2..]
    ensures "" !in args
  {
    assert args == [args[0], args[1]] + args[2..];
  }

  predicate Proper(tokens: seq<string>) {
    "" !in tokens && "--" !in tokens
  }

  lemma {:induction false} TokensAreProper(pieces: seq<Piece>, allowed: set<string>)
    requires AllLegal(pieces, allowed) && Plain(allowed)
    ensures Proper(Spelled(pieces)) && Proper(OptionTokens(pieces)) && Proper(Positionals(pieces))
  {
    if pieces != [] {
      assert pieces[0] in pieces && AllLegal(pieces[1..], allowed);
      PieceIsProper(pieces[0], allowed);
      TokensAreProper(pieces[1..], allowed);
    }
  }

  lemma PieceIsProper(p: Piece, allowed: set<string>)
    requires Legal(p, allowed) && Plain(allowed)
    ensures Proper(Written(p)) && Proper(OptionPart(p)) && Proper(PositionalPart(p))
  {
    if !p.Positional? {
      assert |"--" + p.name| > 2;
      assert Dashed("--");
    }
  }

  // ---- Normalizing again ----

  /** The options alone, each in its two-token form. */
  function JustOptions(pieces: seq<Piece>): seq<Piece> {
    if pieces == [] then []
    else (if pieces[0].Positional? then [] else [Spaced(pieces[0].name, pieces[0].value)]) + JustOptions(pieces[1..])
  }

  lemma {:induction false} JustOptionsKeepsOptions(pieces: seq<Piece>, allowed: set<string>)
    requires AllLegal(pieces, allowed)
    ensures var options := JustOptions(pieces);
            && AllLegal(options, allowed) && Positionals(options) == []
            && Spelled(options) == OptionTokens(pieces) == OptionTokens(options)
  {
    if pieces != [] {
      assert pieces[0] in pieces && AllLegal(pieces[1..], allowed);
      JustOptionsKeepsOptions(pieces[1..], allowed);
      var more := JustOptions(pieces[1..]);
      if !pieces[0].Positional? {
        var p := Spaced(pieces[0].name, pieces[0].value);
        assert ([p] + more)[0] == p && ([p] + more)[1..] == more;
      } else {
        assert [] + more == more;
      }
    }
  }

  lemma SpellingIsUnique(args: seq<string>, a: seq<Piece>, b: seq<Piece>)
    requires IsReadonly(args) && Spells(args, a) && Spells(args, b)
    ensures a == b
  {
    var allowed := ReadonlyOptions(args[0]).value;
    OptionsArePlain(args[0]);
    ReadsWhatIsSpelled(a, allowed);
    ReadsWhatIsSpelled(b, allowed);
  }

  lemma SeparatorIsRefused(args: seq<string>)
    requires IsReadonly(args) && "" !in args && "--" in args[2..]
    ensures Normalized(args) == Refused(NotPermitted)
  {
    if Normalized(args).Accepted? {
      var pieces := AcceptedIsSpelled(args);
      OptionsArePlain(args[0]);
      TokensAreProper(pieces, ReadonlyOptions(args[0]).value);
    }
  }

  /** The normal form normalizes to itself exactly when it has no positional; otherwise its `--` is refused. */
  lemma NormalizingAgain(args: seq<string>, pieces: seq<Piece>)
    requires IsReadonly(args) && Spells(args, pieces)
    ensures Normalized(args).Accepted?
    ensures Normalized(Normalized(args).argv)
            == if Positionals(pieces) == [] then Normalized(args) else Refused(NotPermitted)
  {
    var allowed := ReadonlyOptions(args[0]).value;
    OptionsArePlain(args[0]);
    SpelledIsAccepted(args, pieces);
    TokensAreProper(pieces, allowed);
    JustOptionsKeepsOptions(pieces, allowed);
    var argv := NormalForm(args[0], args[1], pieces);
    AfterCommand(args[0], args[1], pieces);
    if Positionals(pieces) == [] {
      SpelledIsAccepted(argv, JustOptions(pieces));
    } else {
      SeparatorIsRefused(argv);
    }
  }

  lemma AfterCommand(resource: string, action: string, pieces: seq<Piece>)
    ensures var argv := NormalForm(resource, action, pieces);
            && argv[0] == resource && argv[1] == action
            && argv[2..] == (if Positionals(pieces) == [] then OptionTokens(pieces)
                             else OptionTokens(pieces) + ["--"] + Positionals(pieces))
            && argv == [resource, action] + argv[2..]
  {
    hide OptionTokens, Positionals;
  }

  /** A table named on its own: accepted, and its normal form is refused. */
  lemma NormalizingCanRefuse()
    ensures var args := ["tables", "list", "orders"];
            && Normalized(args) == Accepted(["tables", "list", "--", "orders"])
            && Normalized(["tables", "list", "--", "orders"]) == Refused(NotPermitted)
  {
    var args, pieces := ["tables", "list", "orders"], [Positional("orders")];
    assert pieces[1..] == [] && args[2..] == ["orders"];
    assert Spelled(pieces) == ["orders"] && Positionals(pieces) == ["orders"] && OptionTokens(pieces) == [];
    assert Spells(args, pieces);
    SpelledIsAccepted(args, pieces);
    NormalizingAgain(args, pieces);
    assert NormalForm("tables", "list", pieces) == ["tables", "list", "--", "orders"];
  }

  /**
   * The tool path normalizes, then the client normalizes the result again (tool_runtime.py:920, polaris.py:113):
   * it runs exactly the accepted calls without a positional, and runs what was authorized.
   */
  function ToolPath(args: seq<string>): Outcome {
    match Normalized(args)
    case Refused(e) => Refused(e)
    case Accepted(argv) => Normalized(argv)
  }

  lemma ToolPathRunsExactlyWhen(args: seq<string>)
    ensures ToolPath(args).Accepted? <==>
            IsReadonly(args) && exists pieces :: Spells(args, pieces) && Positionals(pieces) == []
    ensures ToolPath(args).Accepted? ==> ToolPath(args) == Normalized(args)
  {
    if Normalized(args).Accepted? {
      var pieces := AcceptedIsSpelled(args);
      NormalizingAgain(args, pieces);
      forall other | Spells(args, other) ensures other == pieces {
        SpellingIsUnique(args, pieces, other);
      }
    } else if IsReadonly(args) {
      forall pieces | Spells(args, pieces) ensures false {
        SpelledIsAccepted(args, pieces);
      }
    }
  }

  // ---- The loop ----

  /** The pieces read before `index` and the tokens collected from them, where `all` is what the whole list reads as. */
  ghost predicate Reading(args: seq<string>, allowed: set<string>, all: Option<seq<Piece>>, index: nat,
                          pieces: seq<Piece>, options: seq<string>, positionals: seq<string>) {
    && index <= |args|
    && options == OptionTokens(pieces) && positionals == Positionals(pieces)
    && all == Prepend(pieces, Read(args[index..], allowed))
  }

  lemma ReadsNext(args: seq<string>, allowed: set<string>, all: Option<seq<Piece>>, index: nat,
                  pieces: seq<Piece>, options: seq<string>, positionals: seq<string>)
    requires Reading(args, allowed, all, index, pieces, options, positionals) && index < |args|
    ensures var head := Head(args[index..], allowed);
            if head.None? then all.None?
            else Reading(args, allowed, all, index + Size(head.value), pieces + [head.value],
                         options + OptionPart(head.value), positionals + PositionalPart(head.value))
  {
    var rest := args[index..];
    if Head(rest, allowed).Some? {
      var p := Head(rest, allowed).value;
      TokensAppend(pieces, p);
      assert rest[Size(p)..] == args[index + Size(p)..];
      PrependTwice(pieces, p, Read(rest[Size(p)..], allowed));
    }
  }

  lemma PrependTwice(pieces: seq<Piece>, p: Piece, rest: Option<seq<Piece>>)
    ensures Prepend(pieces, Prepend([p], rest)) == Prepend(pieces + [p], rest)
  {
    if rest.Some? {
      assert pieces + ([p] + rest.value) == pieces + [p] + rest.value;
    }
  }

  lemma {:induction false} TokensAppend(pieces: seq<Piece>, p: Piece)
    ensures OptionTokens(pieces + [p]) == OptionTokens(pieces) + OptionPart(p)
    ensures Positionals(pieces + [p]) == Positionals(pieces) + PositionalPart(p)
  {
    if pieces == [] {
      assert OptionTokens([p]) == OptionPart(p) && Positionals([p]) == PositionalPart(p);
    } else {
      assert (pieces + [p])[1..] == pieces[1..] + [p];
      TokensAppend(pieces[1..], p);
    }
  }

  lemma StartsReading(args: seq<string>, allowed: set<string>)
    requires |args| >= 2
    ensures Reading(args, allowed, Read(args[2..], allowed), 2, [], [], [])
  {
    var all := Read(args[2..], allowed);
    if all.Some? {
      assert [] + all.value == all.value;
    }
  }

  lemma DoneReading(args: seq<string>, allowed: set<string>, all: Option<seq<Piece>>,
                    pieces: seq<Piece>, options: seq<string>, positionals: seq<string>)
    requires Reading(args, allowed, all, |args|, pieces, options, positionals)
    ensures all == Some(pieces)
  {
    assert args[|args|..] == [] && pieces + [] == pieces;
  }

  /** An option token, or a positional: what it adds to either list and how many tokens it takes. */
  method ReadOne(rest: seq<string>, allowed: set<string>)
    returns (ok: bool, options: seq<string>, positionals: seq<string>, taken: nat)
    requires rest != []
    ensures ok <==> Head(rest, allowed).Some?
    ensures ok ==> var p := Head(rest, allowed).value;
                   options == OptionPart(p) && positionals == PositionalPart(p) && taken == Size(p)
  {
    ok, options, positionals, taken := false, [], [], 1;
    var item := rest[0];
    if item == "--" { return; }
    if Dashed(item) {
      if !DoubleDashed(item) { return; }
      var n := EqualsAt(item[2..]);
      var name, value := item[2..][..n], "";
      if name !in allowed { return; }
      if n < |item[2..]| {
        value := item[2..][n + 1..];
      } else {
        if |rest| < 2 { return; }
        value, taken := rest[1], 2;
      }
      ok := !BadValue(value);
      options := ["--" + name, value];
    } else {
      ok, positionals := true, [item];
    }
  }

  /** One turn of the loop. */
  method Turn(args: seq<string>, allowed: set<string>, index: nat, options: seq<string>, positionals: seq<string>,
              ghost all: Option<seq<Piece>>, ghost pieces: seq<Piece>)
    returns (ok: bool, at: nat, moreOptions: seq<string>, morePositionals: seq<string>, ghost more: seq<Piece>)
    requires Reading(args, allowed, all, index, pieces, options, positionals) && index < |args|
    ensures ok ==> index < at && Reading(args, allowed, all, at, more, moreOptions, morePositionals)
    ensures !ok ==> all.None?
  {
    hide Head, Reading, OptionPart, PositionalPart;
    ReadsNext(args, allowed, all, index, pieces, options, positionals);
    var option, positional, taken;
    ok, option, positional, taken := ReadOne(args[index..], allowed);
    at, moreOptions, morePositionals := index + taken, options + option, positionals + positional;
    more := if ok then pieces + [Head(args[index..], allowed).value] else pieces;
  }

  /** The loop of `normalize_readonly_args`. */
  method ReadTokens(args: seq<string>, allowed: set<string>)
    returns (ok: bool, options: seq<string>, positionals: seq<string>)
    requires |args| >= 2
    ensures var pieces := Read(args[2..], allowed);
            && ok == pieces.Some?
            && (ok ==> options == OptionTokens(pieces.value) && positionals == Positionals(pieces.value))
  {
    options, positionals := [], [];
    var index := 2;
    ghost var all, pieces: seq<Piece> := Read(args[2..], allowed), [];
    StartsReading(args, allowed);
    while index < |args|
      invariant Reading(args, allowed, all, index, pieces, options, positionals)
    {
      ok, index, options, positionals, pieces := Turn(args, allowed, index, options, positionals, all, pieces);
      if !ok { return; }
    }
    DoneReading(args, allowed, all, pieces, options, positionals);
    ok := true;
  }

  /** `normalize_readonly_args`. */
  method Normalize(args: seq<string>) returns (r: Outcome)
    ensures r == Normalized(args)
  {
    if |args| < 2 { return Refused(BadArguments); }
    if "" in args { return Refused(BadArguments); }
    var resource, action := args[0], args[1];
    if ReadonlyOptions(resource).None? || action !in READONLY_ACTIONS { return Refused(NotPermitted); }
    var ok, options, positionals := ReadTokens(args, ReadonlyOptions(resource).value);
    if !ok || |positionals| > 1 { return Refused(NotPermitted); }
    var argv := [resource, action] + options;
    NoneAdded(argv);
    if positionals != [] { argv := argv + (["--"] + positionals); }
    r := Accepted(argv);
  }

  // ---- The policy resource ----

  datatype Resource = Resource(operation: string, catalog: string, namespace: string, table: string, resource: string,
                               role: string, policy: string, arguments: seq<string>)

  function Values(tokens: seq<string>): map<string, string> {
    if tokens == [] then map[]
    else if DoubleDashed(tokens[0]) then
      var body := tokens[0][2..];
      var n := EqualsAt(body);
      if n < |body| then map[body[..n] := body[n + 1..]] + Values(tokens[1..])
      else if |tokens| > 1 then map[body := tokens[1]] + Values(tokens[2..])
      else Values(tokens[1..])
    else Values(tokens[1..])
  }

  /** `_option_values`. */
  method OptionValues(tokens: seq<string>) returns (values: map<string, string>)
    ensures values == Values(tokens)
  {
    values := map[];
    var index := 0;
    while index < |tokens|
      invariant index <= |tokens|
      invariant Values(tokens) == values + Values(tokens[index..])
    {
      var rest, before := tokens[index..], values;
      assert index + 1 < |tokens| ==> rest[2..] == tokens[index + 2..];
      assert rest[1..] == tokens[index + 1..];
      if DoubleDashed(tokens[index]) {
        var body := tokens[index][2..];
        var n := EqualsAt(body);
        if n < |body| {
          values := values[body[..n] := body[n + 1..]];
          assert before + Values(rest) == values + Values(rest[1..]);
          index := index + 1;
          continue;
        }
        if index + 1 < |tokens| {
          values := values[body := tokens[index + 1]];
          assert before + Values(rest) == values + Values(rest[2..]);
          index := index + 2;
          continue;
        }
      }
      index := index + 1;
    }
    assert tokens[|tokens|..] == [];
  }

  function Get(values: map<string, string>, key: string, other: string): string {
    if key in values then values[key] else other
  }

  function FirstIndex(s: seq<string>, x: string): (n: nat)
    requires x in s
    ensures n < |s| && s[n] == x && x !in s[..n]
  {
    if s[0] == x then 0
    else
      var n := FirstIndex(s[1..], x);
      assert s[..n + 1] == [s[0]] + s[1..][..n];
      n + 1
  }

  function Undashed(tokens: seq<string>): seq<string> {
    if tokens == [] then []
    else (if Dashed(tokens[0]) then [] else [tokens[0]]) + Undashed(tokens[1..])
  }

  /** The option tokens and the positionals among the tokens after resource and action. */
  function Cut(rest: seq<string>): (seq<string>, seq<string>) {
    if "--" in rest then
      var n := FirstIndex(rest, "--");
      (rest[..n], rest[n + 1..])
    else (rest, Undashed(rest))
  }

  function First(tokens: seq<string>): string {
    if tokens != [] then tokens[0] else ""
  }

  /** `polaris_resource`; None stands for the error it raises. */
  function PolarisResource(args: seq<string>, defaultCatalog: string): Option<Resource> {
    if args == [] || "" in args then None
    else
      var (options, positional) := Cut(if |args| > 1 then args[2..] else []);
      Some(Fields(args, Values(options), First(positional), defaultCatalog))
  }

  function Fields(args: seq<string>, values: map<string, string>, target: string, defaultCatalog: string): Resource
    requires args != []
  {
    Resource(if |args| > 1 then args[0] + "." + args[1] else args[0],
             Get(values, "catalog", defaultCatalog),
             Get(values, "namespace", ""),
             Get(values, "table", ""),
             Get(values, "resource", target),
             Get(values, "catalog-role", Get(values, "principal-role", "")),
             Get(values, "policy", ""),
             args)
  }

  /** The value of the last option of that name. */
  function LastOption(pieces: seq<Piece>, name: string): Option<string> {
    if pieces == [] then None
    else
      var later := LastOption(pieces[1..], name);
      if later.Some? then later
      else if !pieces[0].Positional? && pieces[0].name == name then Some(pieces[0].value)
      else None
  }

  function LastOr(pieces: seq<Piece>, name: string, other: string): string {
    match LastOption(pieces, name)
    case None => other
    case Some(value) => value
  }

  lemma {:induction false} ValuesAreLastOptions(pieces: seq<Piece>, allowed: set<string>, key: string, other: string)
    requires AllLegal(pieces, allowed) && Plain(allowed)
    ensures key in Values(OptionTokens(pieces)) <==> LastOption(pieces, key).Some?
    ensures Get(Values(OptionTokens(pieces)), key, other) == LastOr(pieces, key, other)
  {
    if pieces != [] {
      var p := pieces[0];
      assert p in pieces && AllLegal(pieces[1..], allowed);
      ValuesAreLastOptions(pieces[1..], allowed, key, other);
      if p.Positional? {
        assert OptionTokens(pieces) == OptionTokens(pieces[1..]);
      } else {
        OptionIsRead(p, OptionTokens(pieces[1..]), allowed);
      }
    }
  }

  lemma OptionIsRead(p: Piece, more: seq<string>, allowed: set<string>)
    requires !p.Positional? && Legal(p, allowed) && Plain(allowed)
    ensures Values(OptionPart(p) + more) == map[p.name := p.value] + Values(more)
  {
    var tokens := OptionPart(p) + more;
    EqualsAtFinds(p.name, "");
    assert tokens[0][2..] == p.name && tokens[0][2..][..|p.name|] == p.name;
    assert tokens[1] == p.value && tokens[2..] == more;
  }

  lemma PieceIsRead(p: Piece, more: seq<string>, allowed: set<string>)
    requires Legal(p, allowed) && Plain(allowed)
    ensures Values(Written(p) + more) == (if p.Positional? then map[] else map[p.name := p.value]) + Values(more)
  {
    hide EqualsAt;
    match p {
      case Inline(name, value) =>
        EqualsAtFinds(name, value);
        var item := "--" + name + "=" + value;
        assert item[2..] == name + "=" + value;
        assert item[2..][..|name|] == name && item[2..][|name| + 1..] == value;
        assert ([item] + more)[1..] == more;
      case Spaced(_, _) => OptionIsRead(p, more, allowed);
      case Positional(text) => assert ([text] + more)[1..] == more;
    }
  }

  /** How an option is spelled makes no difference to its value. */
  lemma {:induction false} SpellingKeepsValues(pieces: seq<Piece>, allowed: set<string>)
    requires AllLegal(pieces, allowed) && Plain(allowed)
    ensures Values(Spelled(pieces)) == Values(OptionTokens(pieces))
  {
    hide Values, Written, Plain, Legal;
    if pieces != [] {
      var p, rest := pieces[0], pieces[1..];
      assert p in pieces && AllLegal(rest, allowed);
      SpellingKeepsValues(rest, allowed);
      PieceIsRead(p, Spelled(rest), allowed);
      if p.Positional? {
        assert OptionTokens(pieces) == OptionTokens(rest);
      } else {
        OptionIsRead(p, OptionTokens(rest), allowed);
      }
    }
  }

  lemma {:induction false} OnlyAllowedNames(pieces: seq<Piece>, allowed: set<string>, name: string)
    requires AllLegal(pieces, allowed) && name !in allowed
    ensures LastOption(pieces, name).None?
  {
    if pieces != [] {
      assert pieces[0] in pieces && AllLegal(pieces[1..], allowed);
      OnlyAllowedNames(pieces[1..], allowed, name);
    }
  }

  lemma {:induction false} FirstIndexFinds(before: seq<string>, x: string, after: seq<string>)
    requires x !in before
    ensures x in before + [x] + after && FirstIndex(before + [x] + after, x) == |before|
  {
    var s := before + [x] + after;
    assert s[|before|] == x;
    if before != [] {
      assert before[0] in before;
      assert s[1..] == before[1..] + [x] + after;
      FirstIndexFinds(before[1..], x, after);
    }
  }

  /** The value found for `resource` when no `--resource` was given. */
  function Target(pieces: seq<Piece>): string {
    if Positionals(pieces) != [] then Positionals(pieces)[0]
    else if pieces != [] && !pieces[0].Positional? then pieces[0].value
    else ""
  }

  /** The normal form taken apart again. */
  lemma TakenApart(pieces: seq<Piece>, allowed: set<string>, rest: seq<string>)
    requires AllLegal(pieces, allowed) && Plain(allowed)
    requires rest == if Positionals(pieces) == [] then OptionTokens(pieces)
                     else OptionTokens(pieces) + ["--"] + Positionals(pieces)
    ensures Cut(rest).0 == OptionTokens(pieces) && First(Cut(rest).1) == Target(pieces)
    ensures "" !in rest
  {
    TokensAreProper(pieces, allowed);
    if Positionals(pieces) == [] {
      FirstIsValue(pieces, allowed);
    } else {
      FirstIndexFinds(OptionTokens(pieces), "--", Positionals(pieces));
    }
  }

  lemma FirstIsValue(pieces: seq<Piece>, allowed: set<string>)
    requires AllLegal(pieces, allowed) && Positionals(pieces) == []
    ensures First(Undashed(OptionTokens(pieces))) == Target(pieces)
  {
    if pieces != [] {
      assert pieces[0] in pieces;
      var tokens := OptionTokens(pieces);
      assert PositionalPart(pieces[0]) == [];
      assert Dashed(tokens[0]) && tokens[1] == pieces[0].value && tokens[1..][0] == tokens[1];
    }
  }

  lemma FieldsOfOptions(argv: seq<string>, pieces: seq<Piece>, resource: string, target: string, defaultCatalog: string)
    requires ReadonlyOptions(resource).Some? && AllLegal(pieces, ReadonlyOptions(resource).value) && |argv| >= 2
    ensures Fields(argv, Values(OptionTokens(pieces)), target, defaultCatalog)
            == Resource(argv[0] + "." + argv[1],
                        LastOr(pieces, "catalog", defaultCatalog),
                        LastOr(pieces, "namespace", ""),
                        "",
                        LastOr(pieces, "resource", target),
                        LastOr(pieces, "catalog-role", ""),
                        "",
                        argv)
  {
    var allowed := ReadonlyOptions(resource).value;
    OptionsArePlain(resource);
    ValuesAreLastOptions(pieces, allowed, "catalog", defaultCatalog);
    ValuesAreLastOptions(pieces, allowed, "namespace", "");
    ValuesAreLastOptions(pieces, allowed, "resource", target);
    ValuesAreLastOptions(pieces, allowed, "catalog-role", "");
    NeverNamed(pieces, resource, "table");
    NeverNamed(pieces, resource, "policy");
    NeverNamed(pieces, resource, "principal-role");
  }

  lemma NeverNamed(pieces: seq<Piece>, resource: string, name: string)
    requires ReadonlyOptions(resource).Some? && AllLegal(pieces, ReadonlyOptions(resource).value)
    requires name == "table" || name == "policy" || name == "principal-role"
    ensures Get(Values(OptionTokens(pieces)), name, "") == ""
  {
    var allowed := ReadonlyOptions(resource).value;
    OptionsArePlain(resource);
    ValuesAreLastOptions(pieces, allowed, name, "");
    OnlyAllowedNames(pieces, allowed, name);
  }

  /**
   * Policy sees what runs: the resource read from the normal form names the last catalog and namespace given, and as
   * its target the `--resource` value or else the positional. Without a positional, `polaris_resource` falls back to
   * the first token that is not an option name, which is the value of the first option.
   */
  lemma ResourceReadsBack(args: seq<string>, pieces: seq<Piece>, defaultCatalog: string)
    requires IsReadonly(args) && Spells(args, pieces)
    ensures Normalized(args).Accepted?
    ensures var argv := Normalized(args).argv;
            PolarisResource(argv, defaultCatalog)
            == Some(Resource(args[0] + "." + args[1],
                             LastOr(pieces, "catalog", defaultCatalog),
                             LastOr(pieces, "namespace", ""),
                             "",
                             LastOr(pieces, "resource", Target(pieces)),
                             LastOr(pieces, "catalog-role", ""),
                             "",
                             argv))
  {
    OptionsArePlain(args[0]);
    SpelledIsAccepted(args, pieces);
    AfterCommand(args[0], args[1], pieces);
    var argv := NormalForm(args[0], args[1], pieces);
    TakenApart(pieces, ReadonlyOptions(args[0]).value, argv[2..]);
    NoneEmpty(argv);
    FieldsOfOptions(argv, pieces, args[0], Target(pieces), defaultCatalog);
  }

  /** The first token that is not an option name, nor a name and a value in one. */
  function FirstLoose(pieces: seq<Piece>): string {
    if pieces == [] then ""
    else match pieces[0]
      case Inline(_, _) => FirstLoose(pieces[1..])
      case Spaced(_, value) => value
      case Positional(text) => text
  }

  lemma {:induction false} FirstLooseIsFirst(pieces: seq<Piece>, allowed: set<string>)
    requires AllLegal(pieces, allowed)
    ensures First(Undashed(Spelled(pieces))) == FirstLoose(pieces)
  {
    if pieces != [] {
      var p, rest := pieces[0], pieces[1..];
      assert p in pieces && AllLegal(rest, allowed);
      FirstLooseIsFirst(rest, allowed);
      WrittenUndashed(p, Spelled(rest), allowed);
    }
  }

  lemma WrittenUndashed(p: Piece, more: seq<string>, allowed: set<string>)
    requires Legal(p, allowed)
    ensures Undashed(Written(p) + more) == (match p
                                            case Inline(_, _) => []
                                            case Spaced(_, value) => [value]
                                            case Positional(text) => [text]) + Undashed(more)
  {
    var tokens := Written(p) + more;
    if p.Spaced? {
      assert tokens[1..] == [p.value] + more && tokens[1..][1..] == more;
      assert Dashed(tokens[0]) && !Dashed(p.value);
    } else {
      assert tokens[1..] == more;
    }
  }

  /**
   * The resource of arguments as they are given, with any options at all and however these are spelled: every field has
   * the last value of its option, a catalog role before a principal role, and the target falls back to the first token
   * that is not an option.
   */
  lemma ResourceOfAnySpelling(resource: string, action: string, pieces: seq<Piece>, allowed: set<string>,
                              defaultCatalog: string)
    requires resource != "" && action != "" && AllLegal(pieces, allowed) && Plain(allowed)
    ensures var args := [resource, action] + Spelled(pieces);
            PolarisResource(args, defaultCatalog)
            == Some(Resource(resource + "." + action,
                             LastOr(pieces, "catalog", defaultCatalog),
                             LastOr(pieces, "namespace", ""),
                             LastOr(pieces, "table", ""),
                             LastOr(pieces, "resource", FirstLoose(pieces)),
                             LastOr(pieces, "catalog-role", LastOr(pieces, "principal-role", "")),
                             LastOr(pieces, "policy", ""),
                             args))
  {
    hide Values, Spelled, Undashed, FirstLoose, LastOr, Get, Plain, AllLegal;
    var args, target := [resource, action] + Spelled(pieces), FirstLoose(pieces);
    assert args[2..] == Spelled(pieces);
    TokensAreProper(pieces, allowed);
    NoneEmpty(args);
    FirstLooseIsFirst(pieces, allowed);
    SpellingKeepsValues(pieces, allowed);
    ValuesAreLastOptions(pieces, allowed, "catalog", defaultCatalog);
    ValuesAreLastOptions(pieces, allowed, "namespace", "");
    ValuesAreLastOptions(pieces, allowed, "table", "");
    ValuesAreLastOptions(pieces, allowed, "resource", target);
    ValuesAreLastOptions(pieces, allowed, "principal-role", "");
    ValuesAreLastOptions(pieces, allowed, "catalog-role", LastOr(pieces, "principal-role", ""));
    ValuesAreLastOptions(pieces, allowed, "policy", "");
  }
}
