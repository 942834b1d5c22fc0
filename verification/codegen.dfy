/**
 * The JavaScript generator of the `sketch` macro: a tree of DOM nodes
 * becomes the body of a JavaScript render function, one `const` per
 * element, each element's children appended to it, and one argument per
 * embedded expression.  Element names `e0, e1, ...` and argument names
 * `a0, a1, ...` are drawn from counters.
 */
module Codegen {

  /** The decimal digit of `d`. */
  function Digit(d: nat): (c: char)
    requires d < 10
    ensures '0' <= c <= '9'
  {
    "0123456789"[d]
  }

  /** `n` in decimal, as `format!("{}")` writes it. */
  function Decimal(n: nat): (s: string)
    ensures 1 <= |s| && forall i :: 0 <= i < |s| ==> '0' <= s[i] <= '9'
    ensures n < 10 <==> |s| == 1
  {
    if n < 10 then [Digit(n)] else Decimal(n / 10) + [Digit(n % 10)]
  }

  /** Different numbers are written differently. */
  lemma {:induction false} DecimalInjective(m: nat, n: nat)
    ensures Decimal(m) == Decimal(n) ==> m == n
  {
    if Decimal(m) == Decimal(n) && 10 <= m && 10 <= n {
      var dm, dn := Decimal(m), Decimal(n);
      assert dm[..|dm| - 1] == Decimal(m / 10) && dn[..|dn| - 1] == Decimal(n / 10);
      assert "0123456789"[m % 10] == dm[|dm| - 1] == "0123456789"[n % 10];
      DecimalInjective(m / 10, n / 10);
    } else if Decimal(m) == Decimal(n) && m < 10 && n < 10 {
      assert "0123456789"[m] == "0123456789"[n];
    }
  }

  /** `IdentFactory`: a prefix letter and a counter of names handed out. */
  class IdentFactory {
    const prefix: char
    var current: nat

    /** `IdentFactory::new`: no name handed out yet. */
    constructor (prefix: char)
      ensures this.prefix == prefix && current == 0
    {
      this.prefix := prefix;
      current := 0;
    }

    /** `IdentFactory::next`: the prefix and the counter in decimal, then the counter moves on. */
    method Next() returns (name: string)
      modifies this
      ensures name == Name(prefix, old(current)) && current == old(current) + 1
    {
      name := [prefix] + Decimal(current);
      current := current + 1;
    }
  }

  /** The `n`-th name with a prefix. */
  function Name(prefix: char, n: nat): (s: string)
    ensures |s| >= 2 && s[0] == prefix && s[1..] == Decimal(n)
  {
    [prefix] + Decimal(n)
  }

  /** Two names from one factory are the same only if they were drawn at the same count. */
  lemma NamesDistinct(prefix: char, m: nat, n: nat)
    ensures Name(prefix, m) == Name(prefix, n) <==> m == n
  {
    if Name(prefix, m) == Name(prefix, n) {
      assert Name(prefix, m)[1..] == Name(prefix, n)[1..];
      DecimalInjective(m, n);
    }
  }

  /** The macro's DOM tree: text (already a JavaScript literal), elements, fragments, expressions. */
  datatype Node =
    | Text(text: string)
    | Element(tag: string, children: seq<Node>)
    | Fragment(children: seq<Node>)
    | Expression

  function Size(n: Node): (k: nat)
    ensures k >= 1
  {
    match n
    case Element(_, ch) => 1 + SizeAll(ch)
    case Fragment(ch) => 1 + SizeAll(ch)
    case _ => 1
  }

  function SizeAll(ch: seq<Node>): nat
  {
    if |ch| == 0 then 0 else SizeAll(ch[..|ch| - 1]) + Size(ch[|ch| - 1])
  }

  lemma {:induction false} SizeAllPrefix(ch: seq<Node>, i: nat)
    requires i < |ch|
    ensures SizeAll(ch[..i]) + Size(ch[i]) <= SizeAll(ch)
    decreases |ch|
  {
    if i < |ch| - 1 {
      assert ch[..|ch| - 1][..i] == ch[..i];
      SizeAllPrefix(ch[..|ch| - 1], i);
    } else {
      assert ch[..|ch| - 1] == ch[..i];
    }
  }

  /** `{:?}` of a tag name: in double quotes (the tags the macro accepts need no escapes). */
  function Quote(s: string): string
  {
    "\"" + s + "\""
  }

  /** The head of the statement that declares the name `e`. */
  function Decl(e: string): string
  {
    "const " + e + "="
  }

  /** The render code declares `e` at position `j`. */
  predicate DeclAt(render: string, e: string, j: nat)
  {
    j + |Decl(e)| <= |render| && render[j..j + |Decl(e)|] == Decl(e)
  }

  /** The render code declares `e` somewhere. */
  predicate Declares(render: string, e: string)
  {
    exists j :: 0 <= j <= |render| && DeclAt(render, e, j)
  }

  /** Code that goes on from a declaration declares its name. */
  lemma DeclaredAfter(pre: string, e: string, code: string)
    requires pre + Decl(e) <= code
    ensures Declares(code, e)
  {
    assert code[|pre|..|pre| + |Decl(e)|] == (pre + Decl(e))[|pre|..];
    assert DeclAt(code, e, |pre|);
  }

  /** Code appended after a declaration leaves it declared. */
  lemma {:induction false} StillDeclared(a: string, b: string)
    requires a <= b
    ensures forall e :: Declares(a, e) ==> Declares(b, e)
  {
    forall e | Declares(a, e)
      ensures Declares(b, e)
    {
      var j :| 0 <= j <= |a| && DeclAt(a, e, j);
      assert b[j..j + |Decl(e)|] == a[j..j + |Decl(e)|];
      assert DeclAt(b, e, j);
    }
  }

  /** The statement that makes a text node: it declares `e`, and is ended by `;` so the next statement can follow it. */
  function TextStatement(e: string, text: string): (s: string)
    ensures Decl(e) <= s && s[|s| - 1] == ';'
  {
    Decl(e) + "document.createTextNode(" + text + ");"
  }

  /** The text-node statement as `generate` writes it, with no `;` after it. */
  function TextStatementAsWritten(e: string, text: string): string
  {
    Decl(e) + "document.createTextNode(" + text + ")"
  }

  /** The statement that makes an element: it declares `e` by `createElement` of the quoted tag and ends with `;`. */
  function ElementStatement(e: string, tag: string): (s: string)
    ensures Decl(e) <= s && s[|s| - 1] == ';'
    ensures Decl(e) + "document.createElement(" + Quote(tag) + ")" <= s
  {
    Decl(e) + "document.createElement(" + Quote(tag) + ");"
  }

  /** The statement that makes a fragment: it declares `e` by `createDocumentFragment` and ends with `;`. */
  function FragmentStatement(e: string): (s: string)
    ensures Decl(e) <= s && s[|s| - 1] == ';'
    ensures Decl(e) + "document.createDocumentFragment()" <= s
  {
    Decl(e) + "document.createDocumentFragment();"
  }

  /** The statement that appends the list to `e`: it names `e` first and ends with `;`. */
  function AppendStatement(e: string, list: string): (s: string)
    ensures |s| > 0 && e <= s && s[|s| - 1] == ';'
  {
    e + ".append(" + list + ");"
  }

  /** Pieces joined by commas, no leading or trailing comma. */
  function JoinComma(xs: seq<string>): string
  {
    if |xs| == 0 then "" else if |xs| == 1 then xs[0] else JoinComma(xs[..|xs| - 1]) + "," + xs[|xs| - 1]
  }

  /** The argument list after `n` expressions: `a0,a1,...`, no leading comma. */
  function ArgList(n: nat): (s: string)
    ensures n == 0 <==> |s| == 0
  {
    if n == 0 then "" else if n == 1 then Name('a', 0) else ArgList(n - 1) + "," + Name('a', n - 1)
  }

  /** The argument names after `n` expressions, in order. */
  function ArgNames(n: nat): (s: seq<string>)
    ensures |s| == n && forall i :: 0 <= i < n ==> s[i] == Name('a', i)
  {
    if n == 0 then [] else ArgNames(n - 1) + [Name('a', n - 1)]
  }

  /** The argument list is the argument names joined by commas. */
  lemma {:induction false} ArgListJoined(n: nat)
    ensures ArgList(n) == JoinComma(ArgNames(n))
  {
    if n > 1 {
      ArgListJoined(n - 1);
      assert ArgNames(n)[..n - 1] == ArgNames(n - 1);
    }
  }

  /** What a generator has done so far: its two counters, the render code, the arguments. */
  datatype GenState = GenState(vars: nat, argCount: nat, render: string, args: string, tokens: seq<string>)

  /**
   * The arguments are the names of the expressions met so far, and the
   * render code is whole statements, each ended by `;`.
   */
  predicate Consistent(s: GenState)
  {
    s.args == ArgList(s.argCount) && s.tokens == ArgNames(s.argCount)
    && (|s.render| == 0 || s.render[|s.render| - 1] == ';')
  }

  /** How many elements a tree makes (text children are inlined and make none). */
  function Made(n: Node): nat
  {
    match n
    case Element(_, ch) => 1 + MadeAll(ch)
    case Fragment(ch) => 1 + MadeAll(ch)
    case Text(_) => 1
    case Expression => 0
  }

  function MadeAll(ch: seq<Node>): nat
  {
    if |ch| == 0 then 0
    else MadeAll(ch[..|ch| - 1]) + (if ch[|ch| - 1].Text? then 0 else Made(ch[|ch| - 1]))
  }

  /** How many expressions a tree holds. */
  function Exprs(n: Node): nat
  {
    match n
    case Element(_, ch) => ExprsAll(ch)
    case Fragment(ch) => ExprsAll(ch)
    case Text(_) => 0
    case Expression => 1
  }

  function ExprsAll(ch: seq<Node>): nat
  {
    if |ch| == 0 then 0 else ExprsAll(ch[..|ch| - 1]) + Exprs(ch[|ch| - 1])
  }

  /** The state once an element or fragment has been declared, before its children. */
  function Opened(n: Node, s: GenState): (r: GenState)
    requires n.Element? || n.Fragment?
    ensures r.vars == s.vars + 1 && r.argCount == s.argCount && r.tokens == s.tokens
    ensures s.render + Decl(Name('e', s.vars)) <= r.render
    ensures n.Element? ==> r.render == s.render + ElementStatement(Name('e', s.vars), n.tag)
    ensures n.Fragment? ==> r.render == s.render + FragmentStatement(Name('e', s.vars))
    ensures Consistent(s) ==> Consistent(r)
  {
    var e := Name('e', s.vars);
    var stmt := if n.Element? then ElementStatement(e, n.tag) else FragmentStatement(e);
    PrefixThrough(s.render, Decl(e), stmt, s.render + stmt);
    s.(vars := s.vars + 1, render := s.render + stmt)
  }

  /** The state once an expression has been met: its argument joins the list and the tokens. */
  function Argument(s: GenState): (r: GenState)
    ensures r.vars == s.vars && r.argCount == s.argCount + 1 && r.render == s.render
    ensures r.tokens == s.tokens + [Name('a', s.argCount)]
    ensures Consistent(s) ==> Consistent(r)
  {
    var a := Name('a', s.argCount);
    s.(argCount := s.argCount + 1, args := if |s.args| == 0 then a else s.args + "," + a,
       tokens := s.tokens + [a])
  }

  /** What precedes a statement's head in the code precedes it in any code that goes on from there. */
  lemma PrefixThrough(pre: string, head: string, stmt: string, code: string)
    requires head <= stmt && pre + stmt <= code
    ensures pre + head <= code
  {
    assert (pre + head) == (pre + stmt)[..|pre| + |head|];
  }

  /**
   * `generate`, as a function of the generator's state: the name the node
   * goes by, and the state after.  The element counter grows by the
   * elements made, the argument counter by the expressions met, the render
   * code only grows, and a consistent state stays consistent.  A node other
   * than an expression is declared by a `const` right where the render code
   * stood; an expression adds its argument and writes no code.
   */
  function Gen(n: Node, s: GenState): (r: (string, GenState))
    ensures r.1.vars == s.vars + Made(n) && r.1.argCount == s.argCount + Exprs(n)
    ensures s.render <= r.1.render && s.tokens <= r.1.tokens
    ensures Consistent(s) ==> Consistent(r.1)
    ensures r.0 == if n.Expression? then Name('a', s.argCount) else Name('e', s.vars)
    ensures !n.Expression? ==> s.render + Decl(r.0) <= r.1.render
    ensures n.Expression? ==> r.1.render == s.render && r.1.tokens == s.tokens + [r.0]
    decreases Size(n), 1
  {
    match n
    case Text(text) =>
      var e := Name('e', s.vars);
      (e, s.(vars := s.vars + 1, render := s.render + TextStatement(e, text)))
    case Element(_, ch) =>
      var e := Name('e', s.vars);
      (e, Append(e, ch, Opened(n, s)))
    case Fragment(ch) =>
      var e := Name('e', s.vars);
      (e, Append(e, ch, Opened(n, s)))
    case Expression =>
      (Name('a', s.argCount), Argument(s))
  }

  /**
   * One child in an `append` list: a text child is its own text, verbatim,
   * and writes nothing; an element or fragment is generated and goes by its
   * declared name; an expression goes by its new argument.
   */
  function Piece(child: Node, s: GenState): (r: (string, GenState))
    ensures r.1.vars == s.vars + (if child.Text? then 0 else Made(child))
    ensures r.1.argCount == s.argCount + Exprs(child)
    ensures s.render <= r.1.render && s.tokens <= r.1.tokens
    ensures Consistent(s) ==> Consistent(r.1)
    ensures child.Text? ==> r == (child.text, s)
    ensures (child.Element? || child.Fragment?) ==> Declares(r.1.render, r.0)
    ensures child.Expression? ==> r.0 in r.1.tokens
    decreases Size(child), 2
  {
    match child
    case Text(text) => (text, s)
    case Expression =>
      var r := Gen(child, s);
      assert r.1.tokens[|s.tokens|] == r.0;
      r
    case _ =>
      var r := Gen(child, s);
      DeclaredAfter(s.render, r.0, r.1.render);
      r
  }

  /**
   * The pieces of an `append` list for the children `ch`, against the code
   * and tokens `s`: one per child, a text child's its text, an element's or
   * fragment's declared in the code, an expression's an argument.
   */
  predicate PiecesOf(ch: seq<Node>, names: seq<string>, s: GenState)
  {
    |names| == |ch| &&
    forall i :: 0 <= i < |ch| ==>
      (ch[i].Text? ==> names[i] == ch[i].text)
      && (ch[i].Element? || ch[i].Fragment? ==> Declares(s.render, names[i]))
      && (ch[i].Expression? ==> names[i] in s.tokens)
  }

  /** The pieces stay valid as code and tokens grow, and one more child's piece joins them. */
  lemma PiecesSnoc(ch: seq<Node>, names: seq<string>, a: GenState, piece: string, b: GenState)
    requires |ch| > 0 && PiecesOf(ch[..|ch| - 1], names, a)
    requires a.render <= b.render && a.tokens <= b.tokens
    requires PiecesOf([ch[|ch| - 1]], [piece], b)
    ensures PiecesOf(ch, names + [piece], b)
  {
    var k := |ch| - 1;
    StillDeclared(a.render, b.render);
    forall i | 0 <= i < k
      ensures (ch[i].Text? ==> names[i] == ch[i].text)
        && (ch[i].Element? || ch[i].Fragment? ==> Declares(b.render, names[i]))
        && (ch[i].Expression? ==> names[i] in b.tokens)
    {
      assert ch[..k][i] == ch[i];
      if ch[i].Expression? {
        var j :| 0 <= j < |a.tokens| && a.tokens[j] == names[i];
        assert b.tokens[j] == names[i];
      }
    }
    assert [ch[k]][0] == ch[k];
  }

  /**
   * The children's pieces, in order, generating each non-text child in
   * turn; the pieces are those of the children against the code written.
   */
  function Children(ch: seq<Node>, s: GenState): (r: (seq<string>, GenState))
    ensures PiecesOf(ch, r.0, r.1)
    ensures r.1.vars == s.vars + MadeAll(ch) && r.1.argCount == s.argCount + ExprsAll(ch)
    ensures s.render <= r.1.render && s.tokens <= r.1.tokens
    ensures Consistent(s) ==> Consistent(r.1)
    decreases SizeAll(ch), 3
  {
    if |ch| == 0 then ([], s)
    else
      var k := |ch| - 1;
      SizeAllPrefix(ch, k);
      var before := Children(ch[..k], s);
      var last := Piece(ch[k], before.1);
      assert MadeAll(ch) == MadeAll(ch[..k]) + (if ch[k].Text? then 0 else Made(ch[k]));
      assert ExprsAll(ch) == ExprsAll(ch[..k]) + Exprs(ch[k]);
      assert PiecesOf([ch[k]], [last.0], last.1);
      PiecesSnoc(ch, before.0, before.1, last.0, last.1);
      (before.0 + [last.0], last.1)
  }

  /** `append`: the children are generated, then the element's `append` call is written. */
  function Append(e: string, ch: seq<Node>, s: GenState): (r: GenState)
    ensures r.vars == s.vars + MadeAll(ch) && r.argCount == s.argCount + ExprsAll(ch)
    ensures s.render <= r.render && s.tokens <= r.tokens
    ensures Consistent(s) ==> Consistent(r)
    decreases SizeAll(ch), 4
  {
    var (names, s1) := Children(ch, s);
    s1.(render := s1.render + AppendStatement(e, JoinComma(names)))
  }

  /**
   * An element's or fragment's code: its declaration, then its children's
   * code, then one `append` call on it whose list is the children's pieces
   * in order, each text verbatim and each element or fragment already
   * declared before the call.
   */
  lemma DeclaredBeforeAppend(n: Node, s: GenState)
    requires n.Element? || n.Fragment?
    ensures var (e, r) := Gen(n, s);
      var (names, mid) := Children(n.children, Opened(n, s));
      r.render == mid.render + AppendStatement(e, JoinComma(names))
      && s.render + Decl(e) <= mid.render && Declares(mid.render, e)
      && PiecesOf(n.children, names, mid)
  {
    var e := Name('e', s.vars);
    var o := Opened(n, s);
    var mid := Children(n.children, o).1;
    PrefixThrough(s.render, Decl(e), o.render[|s.render|..], mid.render);
    DeclaredAfter(s.render, e, mid.render);
  }

  /** The generated module: `export function renderN(args){render return root;}`. */
  function Js(fnName: string, args: string, render: string, root: string): string
  {
    "export function " + fnName + "(" + args + "){" + render + "return " + root + ";}"
  }

  /**
   * The generator: element counter, argument factory, render code, argument
   * list and the argument identifiers (as their names).
   */
  class Generator {
    var varCount: nat
    const argFactory: IdentFactory
    var render: string
    var args: string
    var argsTokens: seq<string>

    function State(): GenState
      reads this, argFactory
    {
      GenState(varCount, argFactory.current, render, args, argsTokens)
    }

    predicate Valid()
      reads this, argFactory
    {
      argFactory.prefix == 'a' && Consistent(State())
    }

    /** `Generator::new`: nothing generated yet. */
    constructor ()
      ensures Valid() && fresh(argFactory)
      ensures State() == GenState(0, 0, "", "", [])
    {
      varCount := 0;
      argFactory := new IdentFactory('a');
      render := "";
      args := "";
      argsTokens := [];
    }

    /** `next_el`: `e` and the element counter, which moves on. */
    method NextEl() returns (e: string)
      modifies this`varCount
      ensures e == Name('e', old(varCount)) && varCount == old(varCount) + 1
    {
      e := "e" + Decimal(varCount);
      varCount := varCount + 1;
    }

    /** `generate`: the node's statements go to the render code; its name comes back. */
    method Generate(n: Node) returns (e: string)
      requires argFactory.prefix == 'a'
      modifies this, argFactory
      ensures (e, State()) == Gen(n, old(State()))
      decreases Size(n), 1
    {
      ghost var s := State();
      match n {
        case Text(text) =>
          e := NextEl();
          render := render + TextStatement(e, text);
        case Element(tag, ch) =>
          e := NextEl();
          render := render + ElementStatement(e, tag);
          assert State() == Opened(n, s);
          AppendChildren(e, ch);
        case Fragment(ch) =>
          e := NextEl();
          render := render + FragmentStatement(e);
          assert State() == Opened(n, s);
          AppendChildren(e, ch);
        case Expression =>
          e := argFactory.Next();
          if |args| != 0 {
            args := args + ",";
          } else {
            assert args + e == e;
          }
          args := args + e;
          argsTokens := argsTokens + [e];
          assert State() == Argument(s);
      }
    }

    /** One child of `append`: a text child is inlined, any other is generated. */
    method ChildPiece(child: Node) returns (piece: string)
      requires argFactory.prefix == 'a'
      modifies this, argFactory
      ensures (piece, State()) == Piece(child, old(State()))
      decreases Size(child), 2
    {
      if child.Text? {
        piece := child.text;
      } else {
        piece := Generate(child);
      }
    }

    /** `append`: each child's piece joins the list, first without a comma; then the call is written. */
    method AppendChildren(el: string, ch: seq<Node>)
      requires argFactory.prefix == 'a'
      modifies this, argFactory
      ensures State() == Append(el, ch, old(State()))
      decreases SizeAll(ch), 4
    {
      ghost var start := State();
      ghost var names := [];
      var list := "";
      var i := 0;
      while i < |ch|
        invariant i <= |ch| && argFactory.prefix == 'a'
        invariant (names, State()) == Children(ch[..i], start) && list == JoinComma(names)
      {
        SizeAllPrefix(ch, i);
        assert ch[..i + 1][..i] == ch[..i];
        var piece := ChildPiece(ch[i]);
        if i > 0 {
          list := list + ",";
        }
        list := list + piece;
        assert (names + [piece])[..i] == names;
        names := names + [piece];
        i := i + 1;
      }
      assert ch[..i] == ch;
      render := render + AppendStatement(el, list);
    }

    /** `render_js`: the function is named after the byte length of the argument list. */
    function RenderJs(root: string): (r: (string, string))
      reads this
      ensures r.0 == "render" + Decimal(|args|)
      ensures r.1 == Js(r.0, args, render, root)
    {
      var name := "render" + Decimal(|args|);
      (name, Js(name, args, render, root))
    }
  }

  /**
   * From a fresh generator, a tree gives a render function whose arguments
   * are `a0..` one per expression, whose body is whole statements, one
   * element per non-inlined node, and whose root is the first element.
   */
  lemma {:induction false} FreshGeneration(n: Node)
    requires !n.Expression?
    ensures var (root, s) := Gen(n, GenState(0, 0, "", "", []));
      root == "e0" && s.vars == Made(n) && s.args == ArgList(Exprs(n)) && s.tokens == ArgNames(Exprs(n))
      && s.render[|s.render| - 1] == ';'
  {
    var start := GenState(0, 0, "", "", []);
    assert Consistent(start);
    WholeStatements(n, start);
    var r := Gen(n, start);
    assert r.0 == Name('e', 0) && r.1.argCount == Exprs(n);
    FirstName();
  }

  /** The first element is called `e0`. */
  lemma {:induction false} FirstName()
    ensures Name('e', 0) == "e0"
  {
    assert Decimal(0) == "0";
  }

  /**
   * `render_js` names the function after the byte length of the joined
   * argument list, not after the number of arguments: two expressions give
   * `a0,a1`, five bytes, and so `render5`.
   */
  lemma {:induction false} RenderNameTwoArgs()
    ensures ArgList(2) == "a0,a1"
    ensures "render" + Decimal(|ArgList(2)|) == "render5"
  {
    assert Decimal(1) == "1" && Decimal(5) == "5";
    assert Name('a', 0) == "a0" && Name('a', 1) == "a1";
  }

  /** A tree that is not an expression, generated from consistent state, ends its code with a `;`. */
  lemma {:induction false} WholeStatements(n: Node, s: GenState)
    requires !n.Expression? && Consistent(s)
    ensures var r := Gen(n, s);
      Consistent(r.1) && |r.1.render| > 0 && r.1.render[|r.1.render| - 1] == ';'
  {
    var r := Gen(n, s);
    assert |s.render + Decl(r.0)| <= |r.1.render|;
  }

  /**
   * As written, a text root leaves the render code unended: the text `"hi"`
   * alone gives the code `const e0=document.createTextNode("hi")`, and
   * `render_js` puts `return e0;` straight after its `)`, which is not a
   * JavaScript statement list.  With the `;` the code is whole statements.
   */
  lemma TextRootUnterminated()
    ensures var w := TextStatementAsWritten("e0", "\"hi\"");
      Decl("e0") <= w && w[|w| - 1] == ')' && !Consistent(GenState(1, 0, w, "", []))
    ensures Gen(Text("\"hi\""), GenState(0, 0, "", "", [])) ==
      ("e0", GenState(1, 0, TextStatementAsWritten("e0", "\"hi\"") + ";", "", []))
  {
    assert Name('e', 0) == "e0";
    var w := TextStatementAsWritten("e0", "\"hi\"");
    assert w == Decl("e0") + ("document.createTextNode(" + "\"hi\"" + ")");
    assert w[|w| - 1] == ')';
    assert w[..|Decl("e0")|] == Decl("e0");
    var corrected := Gen(Text("\"hi\""), GenState(0, 0, "", "", [])).1.render;
    assert corrected == "" + TextStatement("e0", "\"hi\"");
    assert TextStatement("e0", "\"hi\"") == w + ";";
    assert corrected == w + ";";
  }
}
