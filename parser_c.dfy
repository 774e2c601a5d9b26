/**
 * The C half of the Latte front end: the AST node builders and destructors of
 * the C files under latte/src/parser, over an explicit model of the C heap.
 *
 * A pointer is a natural number and NULL is 0; the heap is a map from
 * addresses to block contents together with the set of blocks still live.
 * Whether each `malloc` succeeds is a parameter.  Which blocks a node owns is
 * described by a ghost `Tree` laid over the heap: the destructors recurse down
 * that tree, which is what makes them terminate, and the tree says exactly
 * which blocks each destructor releases and which it leaves behind.
 */
module ParserC {
  import opened Wrappers

  type Ptr = nat

  const NULL: Ptr := 0

  // Tags written into the `type` fields of the tagged structs.
  const FIELD_GET_TYPE_IDX: int := 0
  const FIELD_GET_TYPE_STD: int := 1

  const EXPR_TYPE_BINOP: int := 0
  const EXPR_TYPE_CALL: int := 1
  const EXPR_TYPE_FIELD: int := 2
  const EXPR_TYPE_LIT: int := 3
  const EXPR_TYPE_LIT_BOOL: int := 4
  const EXPR_TYPE_LIT_INT: int := 5
  const EXPR_TYPE_LIT_NULL: int := 6
  const EXPR_TYPE_LIT_STR: int := 7
  const EXPR_TYPE_NEW_ARR: int := 8
  const EXPR_TYPE_UNARY: int := 9

  const STMT_TYPE_ASSIGN: int := 0
  const STMT_TYPE_BLOCK: int := 1
  const STMT_TYPE_EMPTY: int := 2
  const STMT_TYPE_EXPR: int := 3
  const STMT_TYPE_FOR: int := 4
  const STMT_TYPE_IF: int := 5
  const STMT_TYPE_POSTFIX: int := 6
  const STMT_TYPE_RETURN: int := 7
  const STMT_TYPE_VAR_INIT: int := 8
  const STMT_TYPE_WHILE: int := 9

  const DEF_TYPE_FUNC: int := 1
  const DEF_TYPE_CLASS: int := 2

  const CLASS_MEMBER_TYPE_FUNC: int := 10
  const CLASS_MEMBER_TYPE_VAR: int := 11

  /** The contents of one heap block: a C string or one of the parser's structs. */
  datatype Block =
    | Uninit                                    // fresh from malloc, not yet written
    | StrBlock(text: string, size: nat)         // char *: the text and the size malloc was asked for
    | ManyNode(next: Ptr, elem: Ptr)            // struct many_t
    | FieldGetNode(kind: int, base: Ptr, payload: Ptr)   // struct field_get_t
    | ExprShell(tag: int, payload: Ptr)         // struct expr_t
    | BinopNode(lhs: Ptr, rhs: Ptr, op: Ptr)    // struct expr_binop_t
    | UnaryNode(operand: Ptr, opChar: char)     // struct expr_unary_t
    | CallNode(callee: Ptr, args: Ptr)          // struct expr_call_t
    | LitNode(kind: int, lit: Ptr)              // struct expr_lit_t
    | NewArrNode(typeName: Ptr, size: Ptr)      // struct expr_new_arr_t
    | StmtShell(tag: int, payload: Ptr)         // struct stmt_t
    | VarDeclsNode(typeName: Ptr, decls: Ptr)   // struct stmt_var_decls_t
    | VarDeclNode(ident: Ptr, init: Ptr)        // struct var_decl_t
    | AssignNode(target: Ptr, value: Ptr)       // struct stmt_assign_t
    | PostfixNode(target: Ptr, isDecr: int)     // struct stmt_postfix_t
    | IfNode(cond: Ptr, thenS: Ptr, elseS: Ptr) // struct stmt_if_t
    | WhileNode(cond: Ptr, body: Ptr)           // struct stmt_while_t
    | ForNode(typeName: Ptr, ident: Ptr, iter: Ptr, body: Ptr)  // struct stmt_for_t
    | DefShell(tag: int, payload: Ptr)          // struct def_t
    | FuncNode(retType: Ptr, ident: Ptr, params: Ptr, body: Ptr) // struct func_t
    | ClassNode(name: Ptr, superclass: Ptr, members: Ptr)        // struct class_t
    | MemberShell(tag: int, payload: Ptr)       // struct class_member_t
    | VarNode(typeName: Ptr, ident: Ptr)        // struct var_t


  /**
   * What a pointer is supposed to point at.  `KMany(e)` is a `many_t` list
   * whose elements are released by the destructor for kind `e`.
   */
  datatype Kind =
    | KStr | KExpr | KFieldGet | KStmt | KVarDecl
    | KDef | KFunc | KClass | KMember | KVar
    | KMany(elem: Kind)

  /**
   * The blocks one node owns.  `addr` is the node itself; `extra` are payload
   * structs that belong to it but that its destructor never frees; `a` to `d`
   * are the children its destructor releases, in the order it releases them;
   * `leak` is an owned child its destructor never releases.
   */
  datatype Tree =
    | Nil
    | Node(addr: Ptr, extra: set<Ptr>, a: Tree, b: Tree, c: Tree, d: Tree, leak: Tree)

  /** Every block the tree owns. */
  ghost function Fp(t: Tree): set<Ptr>
  {
    match t
    case Nil => {}
    case Node(p, x, a, b, c, d, l) => {p} + x + Fp(a) + Fp(b) + Fp(c) + Fp(d) + Fp(l)
  }

  /** The blocks the destructor of the tree's root releases. */
  ghost function Freed(t: Tree): (r: set<Ptr>)
    ensures r <= Fp(t)
    ensures t.Node? ==> t.addr in r
  {
    match t
    case Nil => {}
    case Node(p, _, a, b, c, d, _) => Freed(a) + Freed(b) + Freed(c) + Freed(d) + {p}
  }

  /** The order in which the destructor passes blocks to `free`: children first, the node last. */
  ghost function Trace(t: Tree): seq<Ptr>
  {
    match t
    case Nil => []
    case Node(p, _, a, b, c, d, _) => Trace(a) + Trace(b) + Trace(c) + Trace(d) + [p]
  }

  /** The blocks the tree owns that its destructor leaves allocated. */
  ghost function Kept(t: Tree): (r: set<Ptr>)
    ensures r <= Fp(t)
  {
    match t
    case Nil => {}
    case Node(_, x, a, b, c, d, l) => x + Fp(l) + Kept(a) + Kept(b) + Kept(c) + Kept(d)
  }

  /** No block is owned twice: the parts of every node are pairwise disjoint. */
  ghost predicate Disjoint(t: Tree)
  {
    match t
    case Nil => true
    case Node(p, x, a, b, c, d, l) =>
      && p != NULL
      && p !in x + Fp(a) + Fp(b) + Fp(c) + Fp(d) + Fp(l)
      && x !! Fp(a) + Fp(b) + Fp(c) + Fp(d) + Fp(l)
      && Fp(a) !! Fp(b) + Fp(c) + Fp(d) + Fp(l)
      && Fp(b) !! Fp(c) + Fp(d) + Fp(l)
      && Fp(c) !! Fp(d) + Fp(l)
      && Fp(d) !! Fp(l)
      && Disjoint(a) && Disjoint(b) && Disjoint(c) && Disjoint(d) && Disjoint(l)
  }

  /** The node's destructor releases at most its first `n` children. */
  ghost predicate Arity(t: Tree, n: nat)
    requires t.Node?
  {
    && (n < 1 ==> t.a == Nil)
    && (n < 2 ==> t.b == Nil)
    && (n < 3 ==> t.c == Nil)
    && (n < 4 ==> t.d == Nil)
  }

  /** The node owns at most its first `n` children and leaks none. */
  ghost predicate Exactly(t: Tree, n: nat)
    requires t.Node?
  {
    Arity(t, n) && t.leak == Nil
  }

  /** A node that owns no other block (a string, or a shell with a NULL payload). */
  ghost predicate Bare(t: Tree)
    requires t.Node?
  {
    t.extra == {} && Exactly(t, 0)
  }

  /**
   * `t` describes the object of kind `k` at `p` in the heap `m`, laid out the
   * way the parser's constructors build it and its destructor walks it.
   */
  ghost predicate Shape(m: map<Ptr, Block>, p: Ptr, k: Kind, t: Tree)
    decreases t, 2
  {
    match k
    case KStr => StrShape(m, p, t)
    case KMany(ek) => ManyShape(m, p, ek, t)
    case KFieldGet => FieldGetShape(m, p, t)
    case KExpr => ExprShape(m, p, t)
    case KStmt => StmtShape(m, p, t)
    case KVarDecl => VarDeclShape(m, p, t)
    case KDef => DefShape(m, p, t)
    case KFunc => FuncShape(m, p, t)
    case KClass => ClassShape(m, p, t)
    case KMember => MemberShape(m, p, t)
    case KVar => VarShape(m, p, t)
  }

  /** NULL owns nothing; any other pointer is the root of its tree and is allocated. */
  ghost predicate Rooted(m: map<Ptr, Block>, p: Ptr, t: Tree)
  {
    if p == NULL then t == Nil else t.Node? && t.addr == p && p in m
  }

  ghost predicate StrShape(m: map<Ptr, Block>, p: Ptr, t: Tree)
  {
    Rooted(m, p, t) && (p != NULL ==> m[p].StrBlock? && Bare(t))
  }

  ghost predicate ManyShape(m: map<Ptr, Block>, p: Ptr, ek: Kind, t: Tree)
    decreases t, 1
  {
    && Rooted(m, p, t)
    && (p != NULL ==>
          && m[p].ManyNode? && t.extra == {} && Exactly(t, 2)
          && ManyShape(m, m[p].next, ek, t.a) && Shape(m, m[p].elem, ek, t.b))
  }

  ghost predicate FieldGetShape(m: map<Ptr, Block>, p: Ptr, t: Tree)
    decreases t, 1
  {
    && Rooted(m, p, t)
    && (p != NULL ==>
          && m[p].FieldGetNode? && t.extra == {} && Exactly(t, 2)
          && ExprShape(m, m[p].base, t.a)
          && if m[p].kind == FIELD_GET_TYPE_IDX then ExprShape(m, m[p].payload, t.b)
             else StrShape(m, m[p].payload, t.b))
  }

  ghost predicate ExprShape(m: map<Ptr, Block>, p: Ptr, t: Tree)
    decreases t, 1
  {
    && Rooted(m, p, t)
    && (p != NULL ==> m[p].ExprShell? && ExprPayload(m, m[p].tag, m[p].payload, t))
  }

  ghost predicate StmtShape(m: map<Ptr, Block>, p: Ptr, t: Tree)
    decreases t, 1
  {
    && Rooted(m, p, t)
    && (p != NULL ==> m[p].StmtShell? && StmtPayload(m, m[p].tag, m[p].payload, t))
  }

  ghost predicate VarDeclShape(m: map<Ptr, Block>, p: Ptr, t: Tree)
    decreases t, 1
  {
    && Rooted(m, p, t)
    && (p != NULL ==>
          && m[p].VarDeclNode? && t.extra == {} && Exactly(t, 2)
          && StrShape(m, m[p].ident, t.a) && ExprShape(m, m[p].init, t.b))
  }

  ghost predicate DefShape(m: map<Ptr, Block>, p: Ptr, t: Tree)
    decreases t, 1
  {
    && Rooted(m, p, t)
    && (p != NULL ==>
          && m[p].DefShell? && t.extra == {} && Exactly(t, 1)
          && var w := m[p].payload;
             if w == NULL then t.a == Nil
             else if m[p].tag == DEF_TYPE_FUNC then FuncShape(m, w, t.a)
             else m[p].tag == DEF_TYPE_CLASS && ClassShape(m, w, t.a))
  }

  ghost predicate FuncShape(m: map<Ptr, Block>, p: Ptr, t: Tree)
    decreases t, 1
  {
    && Rooted(m, p, t)
    && (p != NULL ==>
          && m[p].FuncNode? && t.extra == {} && Exactly(t, 4)
          && StrShape(m, m[p].retType, t.a) && StrShape(m, m[p].ident, t.b)
          && ManyShape(m, m[p].params, KVar, t.c) && ManyShape(m, m[p].body, KStmt, t.d))
  }

  ghost predicate ClassShape(m: map<Ptr, Block>, p: Ptr, t: Tree)
    decreases t, 1
  {
    && Rooted(m, p, t)
    && (p != NULL ==>
          && m[p].ClassNode? && t.extra == {} && Arity(t, 2)
          && StrShape(m, m[p].name, t.a) && ManyShape(m, m[p].members, KMember, t.b)
          && StrShape(m, m[p].superclass, t.leak))
  }

  ghost predicate MemberShape(m: map<Ptr, Block>, p: Ptr, t: Tree)
    decreases t, 1
  {
    && Rooted(m, p, t)
    && (p != NULL ==>
          && m[p].MemberShell? && t.extra == {} && Exactly(t, 1)
          && var w := m[p].payload;
             if w == NULL then t.a == Nil
             else if m[p].tag == CLASS_MEMBER_TYPE_FUNC then FuncShape(m, w, t.a)
             else m[p].tag == CLASS_MEMBER_TYPE_VAR && VarShape(m, w, t.a))
  }

  ghost predicate VarShape(m: map<Ptr, Block>, p: Ptr, t: Tree)
    decreases t, 1
  {
    && Rooted(m, p, t)
    && (p != NULL ==>
          && m[p].VarNode? && t.extra == {} && Exactly(t, 2)
          && StrShape(m, m[p].typeName, t.a) && StrShape(m, m[p].ident, t.b))
  }

  /** The shape of the payload of an `expr_t` shell with tag `tag` and payload `w`. */
  ghost predicate ExprPayload(m: map<Ptr, Block>, tag: int, w: Ptr, t: Tree)
    requires t.Node?
    decreases t, 0
  {
    if w == NULL then Bare(t)
    else if tag == EXPR_TYPE_FIELD then t.extra == {} && Exactly(t, 1) && FieldGetShape(m, w, t.a)
    else
      && w in m && t.extra == {w}
      && match m[w]
         case BinopNode(l, r, _) =>
           tag == EXPR_TYPE_BINOP && Exactly(t, 2) && ExprShape(m, l, t.a) && ExprShape(m, r, t.b)
         case UnaryNode(e, _) =>
           tag == EXPR_TYPE_UNARY && Exactly(t, 1) && ExprShape(m, e, t.a)
         case CallNode(f, args) =>
           tag == EXPR_TYPE_CALL && Exactly(t, 2) && FieldGetShape(m, f, t.a) && ManyShape(m, args, KExpr, t.b)
         case LitNode(_, lit) =>
           tag == EXPR_TYPE_LIT && Exactly(t, 1) && StrShape(m, lit, t.a)
         case NewArrNode(ty, size) =>
           tag == EXPR_TYPE_NEW_ARR && Exactly(t, 2) && StrShape(m, ty, t.a) && ExprShape(m, size, t.b)
         case _ => false
  }

  /** The shape of the payload of a `stmt_t` shell with tag `tag` and payload `s`. */
  ghost predicate StmtPayload(m: map<Ptr, Block>, tag: int, s: Ptr, t: Tree)
    requires t.Node?
    decreases t, 0
  {
    if s == NULL || tag == STMT_TYPE_EMPTY then Bare(t)
    else if tag == STMT_TYPE_RETURN || tag == STMT_TYPE_EXPR then
      t.extra == {} && Exactly(t, 1) && ExprShape(m, s, t.a)
    else if tag == STMT_TYPE_BLOCK then
      t.extra == {} && Exactly(t, 1) && ManyShape(m, s, KStmt, t.a)
    else
      && s in m && t.extra == {s}
      && match m[s]
         case VarDeclsNode(ty, decls) =>
           tag == STMT_TYPE_VAR_INIT && Exactly(t, 2) && StrShape(m, ty, t.a) && ManyShape(m, decls, KVarDecl, t.b)
         case AssignNode(f, e) =>
           && tag == STMT_TYPE_ASSIGN && Arity(t, 1)
           && FieldGetShape(m, f, t.a) && ExprShape(m, e, t.leak)
         case PostfixNode(f, _) =>
           tag == STMT_TYPE_POSTFIX && Exactly(t, 1) && FieldGetShape(m, f, t.a)
         case IfNode(cond, th, el) =>
           && tag == STMT_TYPE_IF && Exactly(t, 3)
           && ExprShape(m, cond, t.a) && StmtShape(m, th, t.b) && StmtShape(m, el, t.c)
         case WhileNode(cond, body) =>
           tag == STMT_TYPE_WHILE && Exactly(t, 2) && ExprShape(m, cond, t.a) && StmtShape(m, body, t.b)
         case ForNode(ty, id, it, body) =>
           && tag == STMT_TYPE_FOR && Exactly(t, 4)
           && StrShape(m, ty, t.a) && StrShape(m, id, t.b)
           && ExprShape(m, it, t.c) && StmtShape(m, body, t.d)
         case _ => false
  }

  /**
   * The live set after the destructor of `t` has run on `live`: each child
   * is released in turn, then the node itself.
   */
  ghost function Drop(live: set<Ptr>, t: Tree): set<Ptr>
    decreases t
  {
    match t
    case Nil => live
    case Node(p, _, a, b, c, d, _) => Drop(Drop(Drop(Drop(live, a), b), c), d) - {p}
  }

  /** The `free` log after the destructor of `t` has run on `log`. */
  ghost function Logged(log: seq<Ptr>, t: Tree): seq<Ptr>
    decreases t
  {
    match t
    case Nil => log
    case Node(p, _, a, b, c, d, _) => Logged(Logged(Logged(Logged(log, a), b), c), d) + [p]
  }

  /** Running a destructor removes exactly the blocks it releases. */
  lemma {:induction false} DropFreed(live: set<Ptr>, t: Tree)
    decreases t
    ensures Drop(live, t) == live - Freed(t)
  {
    match t
    case Nil =>
    case Node(p, _, a, b, c, d, _) =>
      DropFreed(live, a);
      DropFreed(live - Freed(a), b);
      DropFreed(live - Freed(a) - Freed(b), c);
      DropFreed(live - Freed(a) - Freed(b) - Freed(c), d);
  }

  /** Running a destructor appends exactly its trace to the `free` log. */
  lemma {:induction false} LoggedTrace(log: seq<Ptr>, t: Tree)
    decreases t
    ensures Logged(log, t) == log + Trace(t)
  {
    match t
    case Nil =>
    case Node(p, _, a, b, c, d, _) =>
      LoggedTrace(log, a);
      LoggedTrace(log + Trace(a), b);
      LoggedTrace(log + Trace(a) + Trace(b), c);
      LoggedTrace(log + Trace(a) + Trace(b) + Trace(c), d);
      AppendAssoc(log, Trace(a), Trace(b), Trace(c), Trace(d), [p]);
  }

  lemma AppendAssoc(s0: seq<Ptr>, s1: seq<Ptr>, s2: seq<Ptr>, s3: seq<Ptr>, s4: seq<Ptr>, s5: seq<Ptr>)
    ensures s0 + s1 + s2 + s3 + s4 + s5 == s0 + (s1 + s2 + s3 + s4 + s5)
  {
    calc {
      s0 + s1 + s2 + s3 + s4 + s5;
      s0 + (s1 + s2) + s3 + s4 + s5;
      s0 + (s1 + s2 + s3) + s4 + s5;
      s0 + (s1 + s2 + s3 + s4) + s5;
      s0 + (s1 + s2 + s3 + s4 + s5);
    }
  }

  /**
   * While a destructor releases the children of a live, well-formed node in
   * order, each next child is still wholly live, and so is the node itself
   * at the end.
   */
  lemma Live(live: set<Ptr>, t: Tree)
    requires t.Node? && Disjoint(t) && Fp(t) <= live
    ensures Disjoint(t.a) && Disjoint(t.b) && Disjoint(t.c) && Disjoint(t.d)
    ensures t.addr in live && t.extra <= live
    ensures Fp(t.a) <= live
    ensures Fp(t.b) <= Drop(live, t.a)
    ensures Fp(t.c) <= Drop(Drop(live, t.a), t.b)
    ensures Fp(t.d) <= Drop(Drop(Drop(live, t.a), t.b), t.c)
    ensures t.addr in Drop(Drop(Drop(Drop(live, t.a), t.b), t.c), t.d)
  {
    DropFreed(live, t.a);
    DropFreed(live - Freed(t.a), t.b);
    DropFreed(live - Freed(t.a) - Freed(t.b), t.c);
    DropFreed(live - Freed(t.a) - Freed(t.b) - Freed(t.c), t.d);
  }

  /** `m'` holds the same blocks as `m` at every address of `s`. */
  ghost predicate Agree(m: map<Ptr, Block>, m': map<Ptr, Block>, s: set<Ptr>)
  {
    forall q :: q in s ==> q in m && q in m' && m'[q] == m[q]
  }

  /**
   * Whether a tree describes the heap depends only on the blocks the tree
   * owns: a heap that agrees on them is described by it too.
   */
  lemma {:induction false} Frame(m: map<Ptr, Block>, m': map<Ptr, Block>, p: Ptr, k: Kind, t: Tree)
    requires Shape(m, p, k, t) && Agree(m, m', Fp(t))
    ensures Shape(m', p, k, t)
    decreases t, 1
  {
    match k
    case KStr => FrameStr(m, m', p, t);
    case KMany(ek) => FrameMany(m, m', p, ek, t);
    case KFieldGet => FrameFieldGet(m, m', p, t);
    case KExpr => FrameExpr(m, m', p, t);
    case KStmt => FrameStmt(m, m', p, t);
    case KVarDecl => FrameVarDecl(m, m', p, t);
    case KDef => FrameDef(m, m', p, t);
    case KFunc => FrameFunc(m, m', p, t);
    case KClass => FrameClass(m, m', p, t);
    case KMember => FrameMember(m, m', p, t);
    case KVar => FrameVar(m, m', p, t);
  }

  lemma FrameStr(m: map<Ptr, Block>, m': map<Ptr, Block>, p: Ptr, t: Tree)
    requires StrShape(m, p, t) && Agree(m, m', Fp(t))
    ensures StrShape(m', p, t)
  {
  }

  lemma {:induction false} FrameMany(m: map<Ptr, Block>, m': map<Ptr, Block>, p: Ptr, ek: Kind, t: Tree)
    requires ManyShape(m, p, ek, t) && Agree(m, m', Fp(t))
    ensures ManyShape(m', p, ek, t)
    decreases t, 0
  {
    if p != NULL {
      FrameMany(m, m', m[p].next, ek, t.a);
      Frame(m, m', m[p].elem, ek, t.b);
    }
  }

  lemma {:induction false} FrameFieldGet(m: map<Ptr, Block>, m': map<Ptr, Block>, p: Ptr, t: Tree)
    requires FieldGetShape(m, p, t) && Agree(m, m', Fp(t))
    ensures FieldGetShape(m', p, t)
    decreases t, 0
  {
    if p != NULL {
      FrameExpr(m, m', m[p].base, t.a);
      if m[p].kind == FIELD_GET_TYPE_IDX {
        FrameExpr(m, m', m[p].payload, t.b);
      } else {
        FrameStr(m, m', m[p].payload, t.b);
      }
    }
  }

  lemma {:induction false} FrameExpr(m: map<Ptr, Block>, m': map<Ptr, Block>, p: Ptr, t: Tree)
    requires ExprShape(m, p, t) && Agree(m, m', Fp(t))
    ensures ExprShape(m', p, t)
    decreases t, 0
  {
    if p != NULL {
      var tag, w := m[p].tag, m[p].payload;
      if w == NULL {
      } else if tag == EXPR_TYPE_FIELD {
        FrameFieldGet(m, m', w, t.a);
      } else {
        match m[w]
        case BinopNode(l, r, _) => FrameExpr(m, m', l, t.a); FrameExpr(m, m', r, t.b);
        case UnaryNode(e, _) => FrameExpr(m, m', e, t.a);
        case CallNode(f, args) => FrameFieldGet(m, m', f, t.a); FrameMany(m, m', args, KExpr, t.b);
        case LitNode(_, lit) => FrameStr(m, m', lit, t.a);
        case NewArrNode(ty, size) => FrameStr(m, m', ty, t.a); FrameExpr(m, m', size, t.b);
      }
    }
  }

  lemma {:induction false} FrameStmt(m: map<Ptr, Block>, m': map<Ptr, Block>, p: Ptr, t: Tree)
    requires StmtShape(m, p, t) && Agree(m, m', Fp(t))
    ensures StmtShape(m', p, t)
    decreases t, 0
  {
    if p != NULL {
      var tag, s := m[p].tag, m[p].payload;
      if s == NULL || tag == STMT_TYPE_EMPTY {
      } else if tag == STMT_TYPE_RETURN || tag == STMT_TYPE_EXPR {
        FrameExpr(m, m', s, t.a);
      } else if tag == STMT_TYPE_BLOCK {
        FrameMany(m, m', s, KStmt, t.a);
      } else {
        match m[s]
        case VarDeclsNode(ty, decls) => FrameStr(m, m', ty, t.a); FrameMany(m, m', decls, KVarDecl, t.b);
        case AssignNode(f, e) => FrameFieldGet(m, m', f, t.a); FrameExpr(m, m', e, t.leak);
        case PostfixNode(f, _) => FrameFieldGet(m, m', f, t.a);
        case IfNode(cond, th, el) =>
          FrameExpr(m, m', cond, t.a); FrameStmt(m, m', th, t.b); FrameStmt(m, m', el, t.c);
        case WhileNode(cond, body) => FrameExpr(m, m', cond, t.a); FrameStmt(m, m', body, t.b);
        case ForNode(ty, id, it, body) =>
          FrameStr(m, m', ty, t.a); FrameStr(m, m', id, t.b);
          FrameExpr(m, m', it, t.c); FrameStmt(m, m', body, t.d);
      }
    }
  }

  lemma {:induction false} FrameVarDecl(m: map<Ptr, Block>, m': map<Ptr, Block>, p: Ptr, t: Tree)
    requires VarDeclShape(m, p, t) && Agree(m, m', Fp(t))
    ensures VarDeclShape(m', p, t)
    decreases t, 0
  {
    if p != NULL {
      FrameStr(m, m', m[p].ident, t.a);
      FrameExpr(m, m', m[p].init, t.b);
    }
  }

  lemma {:induction false} FrameDef(m: map<Ptr, Block>, m': map<Ptr, Block>, p: Ptr, t: Tree)
    requires DefShape(m, p, t) && Agree(m, m', Fp(t))
    ensures DefShape(m', p, t)
    decreases t, 0
  {
    if p != NULL && m[p].payload != NULL {
      if m[p].tag == DEF_TYPE_FUNC {
        FrameFunc(m, m', m[p].payload, t.a);
      } else {
        FrameClass(m, m', m[p].payload, t.a);
      }
    }
  }

  lemma {:induction false} FrameFunc(m: map<Ptr, Block>, m': map<Ptr, Block>, p: Ptr, t: Tree)
    requires FuncShape(m, p, t) && Agree(m, m', Fp(t))
    ensures FuncShape(m', p, t)
    decreases t, 0
  {
    if p != NULL {
      FrameStr(m, m', m[p].retType, t.a);
      FrameStr(m, m', m[p].ident, t.b);
      FrameMany(m, m', m[p].params, KVar, t.c);
      FrameMany(m, m', m[p].body, KStmt, t.d);
    }
  }

  lemma {:induction false} FrameClass(m: map<Ptr, Block>, m': map<Ptr, Block>, p: Ptr, t: Tree)
    requires ClassShape(m, p, t) && Agree(m, m', Fp(t))
    ensures ClassShape(m', p, t)
    decreases t, 0
  {
    if p != NULL {
      FrameStr(m, m', m[p].name, t.a);
      FrameMany(m, m', m[p].members, KMember, t.b);
      FrameStr(m, m', m[p].superclass, t.leak);
    }
  }

  lemma {:induction false} FrameMember(m: map<Ptr, Block>, m': map<Ptr, Block>, p: Ptr, t: Tree)
    requires MemberShape(m, p, t) && Agree(m, m', Fp(t))
    ensures MemberShape(m', p, t)
    decreases t, 0
  {
    if p != NULL && m[p].payload != NULL {
      if m[p].tag == CLASS_MEMBER_TYPE_FUNC {
        FrameFunc(m, m', m[p].payload, t.a);
      } else {
        FrameVar(m, m', m[p].payload, t.a);
      }
    }
  }

  lemma FrameVar(m: map<Ptr, Block>, m': map<Ptr, Block>, p: Ptr, t: Tree)
    requires VarShape(m, p, t) && Agree(m, m', Fp(t))
    ensures VarShape(m', p, t)
  {
    if p != NULL {
      FrameStr(m, m', m[p].typeName, t.a);
      FrameStr(m, m', m[p].ident, t.b);
    }
  }

  /* ---------------------------------------------------------------------- */
  /* The heap and the parser's allocation and release functions.            */

  class Heap {
    /** The contents of every block ever allocated. */
    var blocks: map<Ptr, Block>
    /** The blocks allocated and not yet freed. */
    var live: set<Ptr>
    /** The next address malloc hands out. */
    var top: Ptr
    /** The global `mem_error` flag, latched by CHECK_NULL. */
    var memError: bool
    /** Set when the code writes through a NULL pointer. */
    var segfault: bool
    /** Every block passed to `free`, in order. */
    ghost var freed: seq<Ptr>

    ghost predicate Valid()
      reads this
    {
      && 0 < top
      && (forall q :: q in blocks ==> 0 < q < top)
      && live <= blocks.Keys
    }

    /** What releasing memory never touches. */
    twostate predicate Unchanged()
      reads this
    {
      blocks == old(blocks) && top == old(top) && memError == old(memError) && segfault == old(segfault)
    }

    constructor ()
      ensures Valid() && blocks == map[] && live == {} && top == 1
      ensures !memError && !segfault && freed == []
    {
      blocks := map[];
      live := {};
      top := 1;
      memError := false;
      segfault := false;
      freed := [];
    }

    /** Reading a block: only live blocks may be read. */
    function At(q: Ptr): Block
      reads this
      requires q in live && live <= blocks.Keys
    {
      blocks[q]
    }

    /** `malloc`: a fresh block when `ok`, NULL otherwise. */
    method Malloc(ok: bool) returns (q: Ptr)
      requires Valid()
      modifies this
      ensures Valid()
      ensures ok ==> q == old(top) && blocks == old(blocks)[q := Uninit] && live == old(live) + {q} && top == old(top) + 1
      ensures !ok ==> q == NULL && blocks == old(blocks) && live == old(live) && top == old(top)
      ensures memError == old(memError) && segfault == old(segfault) && freed == old(freed)
    {
      if ok {
        q := top;
        blocks := blocks[q := Uninit];
        live := live + {q};
        top := top + 1;
      } else {
        q := NULL;
      }
    }

    /** `free`: a no-op on NULL; otherwise the block must be live, so nothing is freed twice. */
    method Free(q: Ptr)
      requires Valid() && (q == NULL || q in live)
      modifies this
      ensures Valid() && Unchanged()
      ensures q != NULL ==> live == old(live) - {q} && freed == old(freed) + [q]
      ensures q == NULL ==> live == old(live) && freed == old(freed)
    {
      if q != NULL {
        live := live - {q};
        freed := freed + [q];
      }
    }

    /** `free` applied to a string owned by a node. */
    method FreeStr(q: Ptr, ghost t: Tree)
      requires Valid() && StrShape(blocks, q, t) && Disjoint(t) && Fp(t) <= live
      modifies this
      ensures Valid() && Unchanged()
      ensures live == Drop(old(live), t)
      ensures freed == Logged(old(freed), t)
    {
      Free(q);
    }

    /** A call through a `void (*)(void *)` destructor pointer: the destructor for kind `k`. */
    method Release(q: Ptr, k: Kind, ghost t: Tree)
      requires Valid() && Shape(blocks, q, k, t) && Disjoint(t) && Fp(t) <= live
      requires !k.KMany?
      modifies this
      ensures Valid() && Unchanged()
      ensures live == Drop(old(live), t)
      ensures freed == Logged(old(freed), t)
      decreases t, 2
    {
      match k
      case KStr => FreeStr(q, t);
      case KExpr => ExprFree(q, t);
      case KFieldGet => FieldGetFree(q, t);
      case KStmt => StmtFree(q, t);
      case KVarDecl => VarDeclFree(q, t);
      case KDef => DefFree(q, t);
      case KFunc => FuncFree(q, t);
      case KClass => ClassFree(q, t);
      case KMember => ClassMemberFree(q, t);
      case KVar => VarFree(q, t);
    }

    /** `many_free(many, free_f)`: the tail first, then the element through `free_f`, then the node. */
    method ManyFree(p: Ptr, ek: Kind, ghost t: Tree)
      requires Valid() && ManyShape(blocks, p, ek, t) && Disjoint(t) && Fp(t) <= live
      requires !ek.KMany?
      modifies this
      ensures Valid() && Unchanged()
      ensures live == Drop(old(live), t)
      ensures freed == Logged(old(freed), t)
      decreases t, 0
    {
      if p == NULL {
        return;
      }
      Live(live, t);
      var next, elem := At(p).next, At(p).elem;
      ManyFree(next, ek, t.a);
      Release(elem, ek, t.b);
      Free(p);
    }

    /** `field_get_free`: the base expression, then the payload by kind, then the node. */
    method FieldGetFree(p: Ptr, ghost t: Tree)
      requires Valid() && FieldGetShape(blocks, p, t) && Disjoint(t) && Fp(t) <= live
      modifies this
      ensures Valid() && Unchanged()
      ensures live == Drop(old(live), t)
      ensures freed == Logged(old(freed), t)
      decreases t, 0
    {
      if p == NULL {
        return;
      }
      Live(live, t);
      var kind, base, payload := At(p).kind, At(p).base, At(p).payload;
      ExprFree(base, t.a);
      if kind == FIELD_GET_TYPE_IDX {
        ExprFree(payload, t.b);
      } else {
        FreeStr(payload, t.b);
      }
      Free(p);
    }

    /**
     * `expr_free`: NULL is a no-op; a shell with a NULL payload is freed
     * alone; otherwise the children the tag names are freed, then the shell.
     * The payload struct itself stays allocated.  Each tag's branch, which
     * ends at the shared `free(ptr)`, is a method of its own below.
     */
    method ExprFree(p: Ptr, ghost t: Tree)
      requires Valid() && ExprShape(blocks, p, t) && Disjoint(t) && Fp(t) <= live
      modifies this
      ensures Valid() && Unchanged()
      ensures live == Drop(old(live), t)
      ensures freed == Logged(old(freed), t)
      decreases t, 1
    {
      if p == NULL {
        return;
      }
      Live(live, t);
      var tag, e := At(p).tag, At(p).payload;
      if e == NULL {
        Free(p);
      } else if tag == EXPR_TYPE_BINOP {
        ExprBinopFree(p, t);
      } else if tag == EXPR_TYPE_UNARY {
        ExprUnaryFree(p, t);
      } else if tag == EXPR_TYPE_CALL {
        ExprCallFree(p, t);
      } else if tag == EXPR_TYPE_FIELD {
        ExprFieldFree(p, t);
      } else if tag == EXPR_TYPE_LIT {
        ExprLitFree(p, t);
      } else if tag == EXPR_TYPE_NEW_ARR {
        ExprNewArrFree(p, t);
      } else {
        assert false;
      }
    }

    /** The BINOP branch of `expr_free`: both operands, then the shell. */
    method ExprBinopFree(p: Ptr, ghost t: Tree)
      requires Valid() && ExprShape(blocks, p, t) && Disjoint(t) && Fp(t) <= live
      requires p != NULL && blocks[p].ExprShell? && blocks[p].payload != NULL && blocks[p].tag == EXPR_TYPE_BINOP
      modifies this
      ensures Valid() && Unchanged()
      ensures live == Drop(old(live), t)
      ensures freed == Logged(old(freed), t)
      decreases t, 0
    {
      Live(live, t);
      var e := At(p).payload;
      var lhs, rhs := At(e).lhs, At(e).rhs;
      ExprFree(lhs, t.a);
      ExprFree(rhs, t.b);
      Free(p);
    }

    /** The UNARY branch of `expr_free`: the operand, then the shell. */
    method ExprUnaryFree(p: Ptr, ghost t: Tree)
      requires Valid() && ExprShape(blocks, p, t) && Disjoint(t) && Fp(t) <= live
      requires p != NULL && blocks[p].ExprShell? && blocks[p].payload != NULL && blocks[p].tag == EXPR_TYPE_UNARY
      modifies this
      ensures Valid() && Unchanged()
      ensures live == Drop(old(live), t)
      ensures freed == Logged(old(freed), t)
      decreases t, 0
    {
      Live(live, t);
      var e := At(p).payload;
      var operand := At(e).operand;
      ExprFree(operand, t.a);
      Free(p);
    }

    /** The CALL branch of `expr_free`: the callee path, the argument list, then the shell. */
    method ExprCallFree(p: Ptr, ghost t: Tree)
      requires Valid() && ExprShape(blocks, p, t) && Disjoint(t) && Fp(t) <= live
      requires p != NULL && blocks[p].ExprShell? && blocks[p].payload != NULL && blocks[p].tag == EXPR_TYPE_CALL
      modifies this
      ensures Valid() && Unchanged()
      ensures live == Drop(old(live), t)
      ensures freed == Logged(old(freed), t)
      decreases t, 0
    {
      Live(live, t);
      var e := At(p).payload;
      var callee, args := At(e).callee, At(e).args;
      FieldGetFree(callee, t.a);
      ManyFree(args, KExpr, t.b);
      Free(p);
    }

    /** The FIELD branch of `expr_free`: the access path, which is the payload itself, then the shell. */
    method ExprFieldFree(p: Ptr, ghost t: Tree)
      requires Valid() && ExprShape(blocks, p, t) && Disjoint(t) && Fp(t) <= live
      requires p != NULL && blocks[p].ExprShell? && blocks[p].payload != NULL && blocks[p].tag == EXPR_TYPE_FIELD
      modifies this
      ensures Valid() && Unchanged()
      ensures live == Drop(old(live), t)
      ensures freed == Logged(old(freed), t)
      decreases t, 0
    {
      Live(live, t);
      var e := At(p).payload;
      FieldGetFree(e, t.a);
      Free(p);
    }

    /** The LIT branch of `expr_free`: the literal text, then the shell. */
    method ExprLitFree(p: Ptr, ghost t: Tree)
      requires Valid() && ExprShape(blocks, p, t) && Disjoint(t) && Fp(t) <= live
      requires p != NULL && blocks[p].ExprShell? && blocks[p].payload != NULL && blocks[p].tag == EXPR_TYPE_LIT
      modifies this
      ensures Valid() && Unchanged()
      ensures live == Drop(old(live), t)
      ensures freed == Logged(old(freed), t)
      decreases t, 0
    {
      Live(live, t);
      var e := At(p).payload;
      var lit := At(e).lit;
      FreeStr(lit, t.a);
      Free(p);
    }

    /** The NEW_ARR branch of `expr_free`: the element type name, the size, then the shell. */
    method ExprNewArrFree(p: Ptr, ghost t: Tree)
      requires Valid() && ExprShape(blocks, p, t) && Disjoint(t) && Fp(t) <= live
      requires p != NULL && blocks[p].ExprShell? && blocks[p].payload != NULL && blocks[p].tag == EXPR_TYPE_NEW_ARR
      modifies this
      ensures Valid() && Unchanged()
      ensures live == Drop(old(live), t)
      ensures freed == Logged(old(freed), t)
      decreases t, 0
    {
      Live(live, t);
      var e := At(p).payload;
      var ty, size := At(e).typeName, At(e).size;
      FreeStr(ty, t.a);
      ExprFree(size, t.b);
      Free(p);
    }

    /**
     * `stmt_free`: NULL is a no-op; a shell with a NULL payload, or an empty
     * statement, is freed alone; RETURN and EXPR free their expression and
     * BLOCK its statement list, which are the payload itself; the other tags
     * free the children they name.  Then the shell is freed; payload structs
     * stay allocated.  The branches for payload structs are methods below.
     */
    method StmtFree(p: Ptr, ghost t: Tree)
      requires Valid() && StmtShape(blocks, p, t) && Disjoint(t) && Fp(t) <= live
      modifies this
      ensures Valid() && Unchanged()
      ensures live == Drop(old(live), t)
      ensures freed == Logged(old(freed), t)
      decreases t, 1
    {
      if p == NULL {
        return;
      }
      Live(live, t);
      var tag, s := At(p).tag, At(p).payload;
      if s == NULL || tag == STMT_TYPE_EMPTY {
        Free(p);
      } else if tag == STMT_TYPE_VAR_INIT {
        StmtVarInitFree(p, t);
      } else if tag == STMT_TYPE_ASSIGN {
        StmtAssignFree(p, t);
      } else if tag == STMT_TYPE_POSTFIX {
        StmtPostfixFree(p, t);
      } else if tag == STMT_TYPE_RETURN {
        StmtExprFree(p, t);
      } else if tag == STMT_TYPE_BLOCK {
        StmtBlockFree(p, t);
      } else if tag == STMT_TYPE_EXPR {
        StmtExprFree(p, t);
      } else if tag == STMT_TYPE_IF {
        StmtIfFree(p, t);
      } else if tag == STMT_TYPE_WHILE {
        StmtWhileFree(p, t);
      } else if tag == STMT_TYPE_FOR {
        StmtForFree(p, t);
      } else {
        assert false;
      }
    }

    /** The VAR_INIT branch of `stmt_free`: the type name, the declarator list, then the shell. */
    method StmtVarInitFree(p: Ptr, ghost t: Tree)
      requires Valid() && StmtShape(blocks, p, t) && Disjoint(t) && Fp(t) <= live
      requires p != NULL && blocks[p].StmtShell? && blocks[p].payload != NULL && blocks[p].tag == STMT_TYPE_VAR_INIT
      modifies this
      ensures Valid() && Unchanged()
      ensures live == Drop(old(live), t)
      ensures freed == Logged(old(freed), t)
      decreases t, 0
    {
      Live(live, t);
      var s := At(p).payload;
      var ty, decls := At(s).typeName, At(s).decls;
      FreeStr(ty, t.a);
      ManyFree(decls, KVarDecl, t.b);
      Free(p);
    }

    /** The ASSIGN branch of `stmt_free`: only the target path, then the shell; the value is leaked. */
    method StmtAssignFree(p: Ptr, ghost t: Tree)
      requires Valid() && StmtShape(blocks, p, t) && Disjoint(t) && Fp(t) <= live
      requires p != NULL && blocks[p].StmtShell? && blocks[p].payload != NULL && blocks[p].tag == STMT_TYPE_ASSIGN
      modifies this
      ensures Valid() && Unchanged()
      ensures live == Drop(old(live), t)
      ensures freed == Logged(old(freed), t)
      decreases t, 0
    {
      Live(live, t);
      var s := At(p).payload;
      var target := At(s).target;
      FieldGetFree(target, t.a);
      Free(p);
    }

    /** The POSTFIX branch of `stmt_free`: the target path, then the shell. */
    method StmtPostfixFree(p: Ptr, ghost t: Tree)
      requires Valid() && StmtShape(blocks, p, t) && Disjoint(t) && Fp(t) <= live
      requires p != NULL && blocks[p].StmtShell? && blocks[p].payload != NULL && blocks[p].tag == STMT_TYPE_POSTFIX
      modifies this
      ensures Valid() && Unchanged()
      ensures live == Drop(old(live), t)
      ensures freed == Logged(old(freed), t)
      decreases t, 0
    {
      Live(live, t);
      var s := At(p).payload;
      var target := At(s).target;
      FieldGetFree(target, t.a);
      Free(p);
    }

    /** The RETURN and EXPR branches of `stmt_free`: the expression, which is the payload itself, then the shell. */
    method StmtExprFree(p: Ptr, ghost t: Tree)
      requires Valid() && StmtShape(blocks, p, t) && Disjoint(t) && Fp(t) <= live
      requires p != NULL && blocks[p].StmtShell? && blocks[p].payload != NULL
      requires blocks[p].tag == STMT_TYPE_RETURN || blocks[p].tag == STMT_TYPE_EXPR
      modifies this
      ensures Valid() && Unchanged()
      ensures live == Drop(old(live), t)
      ensures freed == Logged(old(freed), t)
      decreases t, 0
    {
      Live(live, t);
      var s := At(p).payload;
      ExprFree(s, t.a);
      Free(p);
    }

    /** The BLOCK branch of `stmt_free`: the statement list, which is the payload itself, then the shell. */
    method StmtBlockFree(p: Ptr, ghost t: Tree)
      requires Valid() && StmtShape(blocks, p, t) && Disjoint(t) && Fp(t) <= live
      requires p != NULL && blocks[p].StmtShell? && blocks[p].payload != NULL && blocks[p].tag == STMT_TYPE_BLOCK
      modifies this
      ensures Valid() && Unchanged()
      ensures live == Drop(old(live), t)
      ensures freed == Logged(old(freed), t)
      decreases t, 0
    {
      Live(live, t);
      var s := At(p).payload;
      ManyFree(s, KStmt, t.a);
      Free(p);
    }

    /** The IF branch of `stmt_free`: condition, then-branch, else-branch, then the shell. */
    method StmtIfFree(p: Ptr, ghost t: Tree)
      requires Valid() && StmtShape(blocks, p, t) && Disjoint(t) && Fp(t) <= live
      requires p != NULL && blocks[p].StmtShell? && blocks[p].payload != NULL && blocks[p].tag == STMT_TYPE_IF
      modifies this
      ensures Valid() && Unchanged()
      ensures live == Drop(old(live), t)
      ensures freed == Logged(old(freed), t)
      decreases t, 0
    {
      Live(live, t);
      var s := At(p).payload;
      var cond, thenS, elseS := At(s).cond, At(s).thenS, At(s).elseS;
      ExprFree(cond, t.a);
      StmtFree(thenS, t.b);
      StmtFree(elseS, t.c);
      Free(p);
    }

    /** The WHILE branch of `stmt_free`: condition, body, then the shell. */
    method StmtWhileFree(p: Ptr, ghost t: Tree)
      requires Valid() && StmtShape(blocks, p, t) && Disjoint(t) && Fp(t) <= live
      requires p != NULL && blocks[p].StmtShell? && blocks[p].payload != NULL && blocks[p].tag == STMT_TYPE_WHILE
      modifies this
      ensures Valid() && Unchanged()
      ensures live == Drop(old(live), t)
      ensures freed == Logged(old(freed), t)
      decreases t, 0
    {
      Live(live, t);
      var s := At(p).payload;
      var cond, body := At(s).cond, At(s).body;
      ExprFree(cond, t.a);
      StmtFree(body, t.b);
      Free(p);
    }

    /** The FOR branch of `stmt_free`: element type, name, iterable, body, then the shell. */
    method StmtForFree(p: Ptr, ghost t: Tree)
      requires Valid() && StmtShape(blocks, p, t) && Disjoint(t) && Fp(t) <= live
      requires p != NULL && blocks[p].StmtShell? && blocks[p].payload != NULL && blocks[p].tag == STMT_TYPE_FOR
      modifies this
      ensures Valid() && Unchanged()
      ensures live == Drop(old(live), t)
      ensures freed == Logged(old(freed), t)
      decreases t, 0
    {
      Live(live, t);
      var s := At(p).payload;
      var ty, ident, iter, body := At(s).typeName, At(s).ident, At(s).iter, At(s).body;
      FreeStr(ty, t.a);
      FreeStr(ident, t.b);
      ExprFree(iter, t.c);
      StmtFree(body, t.d);
      Free(p);
    }

    /** `var_decl_free`: the name, the optional initialiser, then the node. */
    method VarDeclFree(p: Ptr, ghost t: Tree)
      requires Valid() && VarDeclShape(blocks, p, t) && Disjoint(t) && Fp(t) <= live
      modifies this
      ensures Valid() && Unchanged()
      ensures live == Drop(old(live), t)
      ensures freed == Logged(old(freed), t)
      decreases t, 0
    {
      if p == NULL {
        return;
      }
      Live(live, t);
      var ident, init := At(p).ident, At(p).init;
      FreeStr(ident, t.a);
      ExprFree(init, t.b);
      Free(p);
    }

    /** `def_free`: the function or class the tag names, then the shell. */
    method DefFree(p: Ptr, ghost t: Tree)
      requires Valid() && DefShape(blocks, p, t) && Disjoint(t) && Fp(t) <= live
      modifies this
      ensures Valid() && Unchanged()
      ensures live == Drop(old(live), t)
      ensures freed == Logged(old(freed), t)
      decreases t, 0
    {
      if p == NULL {
        return;
      }
      Live(live, t);
      var tag, d := At(p).tag, At(p).payload;
      if d != NULL {
        if tag == DEF_TYPE_FUNC {
          FuncFree(d, t.a);
        } else if tag == DEF_TYPE_CLASS {
          ClassFree(d, t.a);
        } else {
          assert false;
        }
      }
      Free(p);
    }

    /** `func_free`: return type, name, parameters, body, then the struct. */
    method FuncFree(p: Ptr, ghost t: Tree)
      requires Valid() && FuncShape(blocks, p, t) && Disjoint(t) && Fp(t) <= live
      modifies this
      ensures Valid() && Unchanged()
      ensures live == Drop(old(live), t)
      ensures freed == Logged(old(freed), t)
      decreases t, 0
    {
      if p == NULL {
        return;
      }
      Live(live, t);
      var retType, ident, params, body := At(p).retType, At(p).ident, At(p).params, At(p).body;
      FreeStr(retType, t.a);
      FreeStr(ident, t.b);
      ManyFree(params, KVar, t.c);
      ManyFree(body, KStmt, t.d);
      Free(p);
    }

    /** `class_free`: the name and the members, then the struct; the superclass name is never freed. */
    method ClassFree(p: Ptr, ghost t: Tree)
      requires Valid() && ClassShape(blocks, p, t) && Disjoint(t) && Fp(t) <= live
      modifies this
      ensures Valid() && Unchanged()
      ensures live == Drop(old(live), t)
      ensures freed == Logged(old(freed), t)
      decreases t, 0
    {
      if p == NULL {
        return;
      }
      Live(live, t);
      var name, members := At(p).name, At(p).members;
      FreeStr(name, t.a);
      ManyFree(members, KMember, t.b);
      Free(p);
    }

    /** `class_member_free`: the method or field the tag names, then the shell. */
    method ClassMemberFree(p: Ptr, ghost t: Tree)
      requires Valid() && MemberShape(blocks, p, t) && Disjoint(t) && Fp(t) <= live
      modifies this
      ensures Valid() && Unchanged()
      ensures live == Drop(old(live), t)
      ensures freed == Logged(old(freed), t)
      decreases t, 0
    {
      if p == NULL {
        return;
      }
      Live(live, t);
      var tag, m := At(p).tag, At(p).payload;
      if m != NULL {
        if tag == CLASS_MEMBER_TYPE_FUNC {
          FuncFree(m, t.a);
        } else if tag == CLASS_MEMBER_TYPE_VAR {
          VarFree(m, t.a);
        } else {
          assert false;
        }
      }
      Free(p);
    }

    /** `var_free`: type, name, then the struct. */
    method VarFree(p: Ptr, ghost t: Tree)
      requires Valid() && VarShape(blocks, p, t) && Disjoint(t) && Fp(t) <= live
      modifies this
      ensures Valid() && Unchanged()
      ensures live == Drop(old(live), t)
      ensures freed == Logged(old(freed), t)
      decreases t, 0
    {
      if p == NULL {
        return;
      }
      Live(live, t);
      var ty, ident := At(p).typeName, At(p).ident;
      FreeStr(ty, t.a);
      FreeStr(ident, t.b);
      Free(p);
    }

    /* -------------------------------------------------------------------- */
    /* Constructors.  Each `malloc` the C code makes takes an `ok` argument */
    /* saying whether that allocation succeeds.                             */

    /**
     * The effect of one `malloc` followed by CHECK_NULL and the stores into
     * the new struct: on success a fresh live block holding `b`; on failure
     * NULL, with `mem_error` latched and the heap untouched.
     */
    twostate predicate Allocated(q: Ptr, b: Block, ok: bool)
      reads this
    {
      && freed == old(freed) && segfault == old(segfault)
      && (ok ==>
            && q == old(top) && blocks == old(blocks)[q := b] && live == old(live) + {q}
            && top == old(top) + 1 && memError == old(memError))
      && (!ok ==>
            && q == NULL && blocks == old(blocks) && live == old(live) && top == old(top)
            && memError)
    }

    /**
     * The effect of a constructor that allocates a payload struct `b` and
     * then hands it to `stmt_create` with tag `tag`.  If the payload cannot
     * be allocated nothing changes but `mem_error`; if the shell cannot, the
     * payload stays allocated and unreachable.
     */
    twostate predicate StmtBoxed(q: Ptr, b: Block, tag: int, ok: bool, okShell: bool)
      reads this
    {
      && freed == old(freed) && segfault == old(segfault)
      && (!ok ==>
            && q == NULL && blocks == old(blocks) && live == old(live) && top == old(top)
            && memError)
      && (ok && !okShell ==>
            && q == NULL && blocks == old(blocks)[old(top) := b] && live == old(live) + {old(top)}
            && top == old(top) + 1 && memError)
      && (ok && okShell ==>
            && q == old(top) + 1
            && blocks == old(blocks)[old(top) := b][q := StmtShell(tag, old(top))]
            && live == old(live) + {old(top), q} && top == old(top) + 2
            && memError == old(memError))
    }

    /**
     * The same for `expr_create`, which checks the payload it was given
     * rather than the shell it allocated: when the shell cannot be
     * allocated, it stores through NULL.
     */
    twostate predicate ExprBoxed(q: Ptr, b: Block, tag: int, ok: bool, okShell: bool)
      reads this
    {
      && freed == old(freed)
      && (!ok ==>
            && q == NULL && blocks == old(blocks) && live == old(live) && top == old(top)
            && memError && segfault == old(segfault))
      && (ok && !okShell ==>
            && q == NULL && blocks == old(blocks)[old(top) := b] && live == old(live) + {old(top)}
            && top == old(top) + 1 && memError == old(memError) && segfault)
      && (ok && okShell ==>
            && q == old(top) + 1
            && blocks == old(blocks)[old(top) := b][q := ExprShell(tag, old(top))]
            && live == old(live) + {old(top), q} && top == old(top) + 2
            && memError == old(memError) && segfault == old(segfault))
    }

    /** Writing a whole struct into a live block. */
    method Store(q: Ptr, b: Block)
      requires Valid() && q in live
      modifies this
      ensures Valid() && blocks == old(blocks)[q := b]
      ensures live == old(live) && top == old(top) && freed == old(freed)
      ensures memError == old(memError) && segfault == old(segfault)
    {
      blocks := blocks[q := b];
    }

    /** `malloc`, CHECK_NULL and the field stores of a constructor with one allocation. */
    method New(b: Block, ok: bool) returns (q: Ptr)
      requires Valid()
      modifies this
      ensures Valid() && Allocated(q, b, ok)
    {
      q := Malloc(ok);
      if q == NULL {
        memError := true;
        return;
      }
      Store(q, b);
    }

    /** `many_create(elem)`: a one-element list. */
    method ManyCreate(elem: Ptr, ok: bool) returns (q: Ptr)
      requires Valid()
      modifies this
      ensures Valid() && Allocated(q, ManyNode(NULL, elem), ok)
    {
      q := New(ManyNode(NULL, elem), ok);
    }

    /** `many_add(elem, next)`: prepends `elem` to the list `next`. */
    method ManyAdd(elem: Ptr, next: Ptr, ok: bool) returns (q: Ptr)
      requires Valid()
      modifies this
      ensures Valid() && Allocated(q, ManyNode(next, elem), ok)
    {
      q := ManyCreate(elem, ok);
      if q == NULL {
        memError := true;
        return;
      }
      Store(q, ManyNode(next, elem));
    }

    /** `field_get_create(e, field)`: access to the field named `field` of `e`. */
    method FieldGetCreate(e: Ptr, field: Ptr, ok: bool) returns (q: Ptr)
      requires Valid()
      modifies this
      ensures Valid() && Allocated(q, FieldGetNode(FIELD_GET_TYPE_STD, e, field), ok)
    {
      q := New(FieldGetNode(FIELD_GET_TYPE_STD, e, field), ok);
    }

    /** `field_get_idx_create(e, idx)`: the element `idx` of the array `e`. */
    method FieldGetIdxCreate(e: Ptr, idx: Ptr, ok: bool) returns (q: Ptr)
      requires Valid()
      modifies this
      ensures Valid() && Allocated(q, FieldGetNode(FIELD_GET_TYPE_IDX, e, idx), ok)
    {
      q := New(FieldGetNode(FIELD_GET_TYPE_IDX, e, idx), ok);
    }

    /**
     * `array_type_create(type)`: the type name with the `[` array marker in
     * front, in a buffer of `strlen(type) + 1` bytes, as written. The bytes
     * `strcpy` stores, terminating NUL included, are one more than that
     * (see `ArrayTypeOverrun`).
     */
    method ArrayTypeCreate(ty: Ptr, ok: bool) returns (q: Ptr)
      requires Valid() && ty in live && blocks[ty].StrBlock?
      modifies this
      ensures Valid()
      ensures Allocated(q, StrBlock(ArrayTypeName(old(blocks)[ty].text), ArrayTypeSizeAsWritten(old(blocks)[ty].text)), ok)
      ensures q != NULL ==> |ArrayTypeBytes(old(blocks)[ty].text)| == blocks[q].size + 1
    {
      var text := At(ty).text;
      q := New(StrBlock(ArrayTypeName(text), ArrayTypeSizeAsWritten(text)), ok);
      ArrayTypeOverrun(text);
    }

    /** `expr_create(type, e)`, as written: the NULL check is on `e`, not on the new shell. */
    method ExprCreate(tag: int, e: Ptr, ok: bool) returns (q: Ptr)
      requires Valid()
      modifies this
      ensures Valid() && freed == old(freed)
      ensures e == NULL ==>
                && q == NULL && memError && segfault == old(segfault)
                && (ok ==> blocks == old(blocks)[old(top) := Uninit] && live == old(live) + {old(top)}
                           && top == old(top) + 1)
                && (!ok ==> blocks == old(blocks) && live == old(live) && top == old(top))
      ensures e != NULL && ok ==>
                && q == old(top) && blocks == old(blocks)[q := ExprShell(tag, e)]
                && live == old(live) + {q} && top == old(top) + 1
                && memError == old(memError) && segfault == old(segfault)
      ensures e != NULL && !ok ==>
                && q == NULL && blocks == old(blocks) && live == old(live) && top == old(top)
                && memError == old(memError) && segfault
    {
      q := Malloc(ok);
      if e == NULL {
        memError := true;
        q := NULL;
        return;
      }
      if q == NULL {
        segfault := true;
        return;
      }
      Store(q, ExprShell(tag, e));
    }

    /** The common tail of the `expr_*_create` functions that allocate a payload struct. */
    method ExprBox(b: Block, tag: int, ok: bool, okShell: bool) returns (q: Ptr)
      requires Valid()
      modifies this
      ensures Valid() && ExprBoxed(q, b, tag, ok, okShell)
    {
      var w := New(b, ok);
      if w == NULL {
        q := NULL;
        return;
      }
      q := ExprCreate(tag, w, okShell);
    }

    /** `expr_binop_create(lhs, rhs, op)`. */
    method ExprBinopCreate(lhs: Ptr, rhs: Ptr, op: Ptr, ok: bool, okShell: bool) returns (q: Ptr)
      requires Valid()
      modifies this
      ensures Valid() && ExprBoxed(q, BinopNode(lhs, rhs, op), EXPR_TYPE_BINOP, ok, okShell)
    {
      q := ExprBox(BinopNode(lhs, rhs, op), EXPR_TYPE_BINOP, ok, okShell);
    }

    /** `expr_unary_create(op, e)`. */
    method ExprUnaryCreate(op: char, e: Ptr, ok: bool, okShell: bool) returns (q: Ptr)
      requires Valid()
      modifies this
      ensures Valid() && ExprBoxed(q, UnaryNode(e, op), EXPR_TYPE_UNARY, ok, okShell)
    {
      q := ExprBox(UnaryNode(e, op), EXPR_TYPE_UNARY, ok, okShell);
    }

    /** `expr_call_create(func, args)`. */
    method ExprCallCreate(func: Ptr, args: Ptr, ok: bool, okShell: bool) returns (q: Ptr)
      requires Valid()
      modifies this
      ensures Valid() && ExprBoxed(q, CallNode(func, args), EXPR_TYPE_CALL, ok, okShell)
    {
      q := ExprBox(CallNode(func, args), EXPR_TYPE_CALL, ok, okShell);
    }

    /** `expr_field_get_create(field)`: the access path itself is the payload. */
    method ExprFieldGetCreate(field: Ptr, ok: bool) returns (q: Ptr)
      requires Valid()
      modifies this
      ensures Valid() && freed == old(freed)
      ensures field == NULL ==>
                && q == NULL && memError && segfault == old(segfault)
                && (ok ==> blocks == old(blocks)[old(top) := Uninit] && live == old(live) + {old(top)}
                           && top == old(top) + 1)
                && (!ok ==> blocks == old(blocks) && live == old(live) && top == old(top))
      ensures field != NULL && ok ==>
                && q == old(top) && blocks == old(blocks)[q := ExprShell(EXPR_TYPE_FIELD, field)]
                && live == old(live) + {q} && top == old(top) + 1
                && memError == old(memError) && segfault == old(segfault)
      ensures field != NULL && !ok ==>
                && q == NULL && blocks == old(blocks) && live == old(live) && top == old(top)
                && memError == old(memError) && segfault
    {
      q := ExprCreate(EXPR_TYPE_FIELD, field, ok);
    }

    /** `expr_lit_create(type, lit)`. */
    method ExprLitCreate(kind: int, lit: Ptr, ok: bool, okShell: bool) returns (q: Ptr)
      requires Valid()
      modifies this
      ensures Valid() && ExprBoxed(q, LitNode(kind, lit), EXPR_TYPE_LIT, ok, okShell)
    {
      q := ExprBox(LitNode(kind, lit), EXPR_TYPE_LIT, ok, okShell);
    }

    /** `expr_new_array_create(type, size)`. */
    method ExprNewArrayCreate(ty: Ptr, size: Ptr, ok: bool, okShell: bool) returns (q: Ptr)
      requires Valid()
      modifies this
      ensures Valid() && ExprBoxed(q, NewArrNode(ty, size), EXPR_TYPE_NEW_ARR, ok, okShell)
    {
      q := ExprBox(NewArrNode(ty, size), EXPR_TYPE_NEW_ARR, ok, okShell);
    }

    /** `stmt_create(type, s)`. */
    method StmtCreate(tag: int, s: Ptr, ok: bool) returns (q: Ptr)
      requires Valid()
      modifies this
      ensures Valid() && Allocated(q, StmtShell(tag, s), ok)
    {
      q := New(StmtShell(tag, s), ok);
    }

    /** The common tail of the `stmt_*_create` functions that allocate a payload struct. */
    method StmtBox(b: Block, tag: int, ok: bool, okShell: bool) returns (q: Ptr)
      requires Valid()
      modifies this
      ensures Valid() && StmtBoxed(q, b, tag, ok, okShell)
    {
      var w := New(b, ok);
      if w == NULL {
        q := NULL;
        return;
      }
      q := StmtCreate(tag, w, okShell);
    }

    /** `stmt_empty_create()`: a shell with no payload. */
    method StmtEmptyCreate(ok: bool) returns (q: Ptr)
      requires Valid()
      modifies this
      ensures Valid() && Allocated(q, StmtShell(STMT_TYPE_EMPTY, NULL), ok)
    {
      q := StmtCreate(STMT_TYPE_EMPTY, NULL, ok);
    }

    /** `stmt_var_decls_create(type, decls)`. */
    method StmtVarDeclsCreate(ty: Ptr, decls: Ptr, ok: bool, okShell: bool) returns (q: Ptr)
      requires Valid()
      modifies this
      ensures Valid() && StmtBoxed(q, VarDeclsNode(ty, decls), STMT_TYPE_VAR_INIT, ok, okShell)
    {
      q := StmtBox(VarDeclsNode(ty, decls), STMT_TYPE_VAR_INIT, ok, okShell);
    }

    /** `var_decl_create(ident, e)`: one declared name with an optional initialiser. */
    method VarDeclCreate(ident: Ptr, e: Ptr, ok: bool) returns (q: Ptr)
      requires Valid()
      modifies this
      ensures Valid() && Allocated(q, VarDeclNode(ident, e), ok)
    {
      q := New(VarDeclNode(ident, e), ok);
    }

    /** `stmt_assign_create(field, e)`. */
    method StmtAssignCreate(field: Ptr, e: Ptr, ok: bool, okShell: bool) returns (q: Ptr)
      requires Valid()
      modifies this
      ensures Valid() && StmtBoxed(q, AssignNode(field, e), STMT_TYPE_ASSIGN, ok, okShell)
    {
      q := StmtBox(AssignNode(field, e), STMT_TYPE_ASSIGN, ok, okShell);
    }

    /** `stmt_postfix_create(field, is_decr)`. */
    method StmtPostfixCreate(field: Ptr, isDecr: int, ok: bool, okShell: bool) returns (q: Ptr)
      requires Valid()
      modifies this
      ensures Valid() && StmtBoxed(q, PostfixNode(field, isDecr), STMT_TYPE_POSTFIX, ok, okShell)
    {
      q := StmtBox(PostfixNode(field, isDecr), STMT_TYPE_POSTFIX, ok, okShell);
    }

    /** `stmt_return_create(e)`: the expression itself is the payload. */
    method StmtReturnCreate(e: Ptr, ok: bool) returns (q: Ptr)
      requires Valid()
      modifies this
      ensures Valid() && Allocated(q, StmtShell(STMT_TYPE_RETURN, e), ok)
    {
      q := StmtCreate(STMT_TYPE_RETURN, e, ok);
    }

    /** `stmt_block_create(stmts)`: the list itself is the payload. */
    method StmtBlockCreate(stmts: Ptr, ok: bool) returns (q: Ptr)
      requires Valid()
      modifies this
      ensures Valid() && Allocated(q, StmtShell(STMT_TYPE_BLOCK, stmts), ok)
    {
      q := StmtCreate(STMT_TYPE_BLOCK, stmts, ok);
    }

    /** `stmt_expr_create(e)`: the expression itself is the payload. */
    method StmtExprCreate(e: Ptr, ok: bool) returns (q: Ptr)
      requires Valid()
      modifies this
      ensures Valid() && Allocated(q, StmtShell(STMT_TYPE_EXPR, e), ok)
    {
      q := StmtCreate(STMT_TYPE_EXPR, e, ok);
    }

    /** `stmt_if_create(cond, if_s, else_s)`. */
    method StmtIfCreate(cond: Ptr, thenS: Ptr, elseS: Ptr, ok: bool, okShell: bool) returns (q: Ptr)
      requires Valid()
      modifies this
      ensures Valid() && StmtBoxed(q, IfNode(cond, thenS, elseS), STMT_TYPE_IF, ok, okShell)
    {
      q := StmtBox(IfNode(cond, thenS, elseS), STMT_TYPE_IF, ok, okShell);
    }

    /** `stmt_while_create(cond, stmts)`. */
    method StmtWhileCreate(cond: Ptr, body: Ptr, ok: bool, okShell: bool) returns (q: Ptr)
      requires Valid()
      modifies this
      ensures Valid() && StmtBoxed(q, WhileNode(cond, body), STMT_TYPE_WHILE, ok, okShell)
    {
      q := StmtBox(WhileNode(cond, body), STMT_TYPE_WHILE, ok, okShell);
    }

    /** `stmt_for_create(type, ident, e, stmt)`. */
    method StmtForCreate(ty: Ptr, ident: Ptr, iter: Ptr, body: Ptr, ok: bool, okShell: bool) returns (q: Ptr)
      requires Valid()
      modifies this
      ensures Valid() && StmtBoxed(q, ForNode(ty, ident, iter, body), STMT_TYPE_FOR, ok, okShell)
    {
      q := StmtBox(ForNode(ty, ident, iter, body), STMT_TYPE_FOR, ok, okShell);
    }

    /** `def_create(type, def)`. */
    method DefCreate(tag: int, def: Ptr, ok: bool) returns (q: Ptr)
      requires Valid()
      modifies this
      ensures Valid() && Allocated(q, DefShell(tag, def), ok)
    {
      q := New(DefShell(tag, def), ok);
    }

    /** `def_func_create(f)`. */
    method DefFuncCreate(f: Ptr, ok: bool) returns (q: Ptr)
      requires Valid()
      modifies this
      ensures Valid() && Allocated(q, DefShell(DEF_TYPE_FUNC, f), ok)
    {
      q := DefCreate(DEF_TYPE_FUNC, f, ok);
    }

    /** `def_class_create(c)`. */
    method DefClassCreate(c: Ptr, ok: bool) returns (q: Ptr)
      requires Valid()
      modifies this
      ensures Valid() && Allocated(q, DefShell(DEF_TYPE_CLASS, c), ok)
    {
      q := DefCreate(DEF_TYPE_CLASS, c, ok);
    }

    /** `func_create(ret_type, ident, args, stmts)`. */
    method FuncCreate(retType: Ptr, ident: Ptr, params: Ptr, body: Ptr, ok: bool) returns (q: Ptr)
      requires Valid()
      modifies this
      ensures Valid() && Allocated(q, FuncNode(retType, ident, params, body), ok)
    {
      q := New(FuncNode(retType, ident, params, body), ok);
    }

    /** `var_create(type, ident)`. */
    method VarCreate(ty: Ptr, ident: Ptr, ok: bool) returns (q: Ptr)
      requires Valid()
      modifies this
      ensures Valid() && Allocated(q, VarNode(ty, ident), ok)
    {
      q := New(VarNode(ty, ident), ok);
    }

    /** `class_create(name, super, members)`. */
    method ClassCreate(name: Ptr, super: Ptr, members: Ptr, ok: bool) returns (q: Ptr)
      requires Valid()
      modifies this
      ensures Valid() && Allocated(q, ClassNode(name, super, members), ok)
    {
      q := New(ClassNode(name, super, members), ok);
    }

    /** `class_member_create(type, m)`. */
    method ClassMemberCreate(tag: int, member: Ptr, ok: bool) returns (q: Ptr)
      requires Valid()
      modifies this
      ensures Valid() && Allocated(q, MemberShell(tag, member), ok)
    {
      q := New(MemberShell(tag, member), ok);
    }

    /** `class_member_func_create(f)`. */
    method ClassMemberFuncCreate(f: Ptr, ok: bool) returns (q: Ptr)
      requires Valid()
      modifies this
      ensures Valid() && Allocated(q, MemberShell(CLASS_MEMBER_TYPE_FUNC, f), ok)
    {
      q := ClassMemberCreate(CLASS_MEMBER_TYPE_FUNC, f, ok);
    }

    /** `class_member_var_create(v)`. */
    method ClassMemberVarCreate(v: Ptr, ok: bool) returns (q: Ptr)
      requires Valid()
      modifies this
      ensures Valid() && Allocated(q, MemberShell(CLASS_MEMBER_TYPE_VAR, v), ok)
    {
      q := ClassMemberCreate(CLASS_MEMBER_TYPE_VAR, v, ok);
    }
  }

  /* ---------------------------------------------------------------------- */
  /* What the constructors build.                                           */

  /** The type name `array_type_create` builds: the element type behind the `[` marker. */
  function ArrayTypeName(ty: string): (r: string)
    ensures |r| == |ty| + 1 && r[0] == '[' && r[1..] == ty
  {
    ['['] + ty
  }

  /** The bytes `array_type_create` stores: the name and its terminating NUL. */
  function ArrayTypeBytes(ty: string): (r: string)
    ensures |r| == |ty| + 2 && r[..|ty| + 1] == ArrayTypeName(ty) && r[|ty| + 1] == '\0'
  {
    ArrayTypeName(ty) + ['\0']
  }

  /** The size `array_type_create` passes to `malloc`, as written: `strlen(type) + 1`. */
  function ArrayTypeSizeAsWritten(ty: string): nat
  {
    |ty| + 1
  }

  /** The size the buffer needs: room for the marker, the name and the NUL. */
  function ArrayTypeSize(ty: string): (n: nat)
    ensures n == |ArrayTypeBytes(ty)|
  {
    |ty| + 2
  }

  /** As written, every call stores one byte past the end of its buffer. */
  lemma ArrayTypeOverrun(ty: string)
    ensures |ArrayTypeBytes(ty)| == ArrayTypeSizeAsWritten(ty) + 1
  {
  }

  /** For instance `int[]`: five bytes go into a four-byte buffer. */
  lemma ArrayTypeOverrunInt()
    ensures ArrayTypeSizeAsWritten("int") == 4 && |ArrayTypeBytes("int")| == 5
  {
  }

  /** The element pointers of the list at `p`, from the head. */
  ghost function Elems(m: map<Ptr, Block>, p: Ptr, ek: Kind, t: Tree): (r: seq<Ptr>)
    requires ManyShape(m, p, ek, t)
    decreases t
  {
    if p == NULL then [] else [m[p].elem] + Elems(m, m[p].next, ek, t.a)
  }

  /** The elements of a list depend only on the blocks it owns. */
  lemma {:induction false} ElemsFrame(m: map<Ptr, Block>, m': map<Ptr, Block>, p: Ptr, ek: Kind, t: Tree)
    requires ManyShape(m, p, ek, t) && Agree(m, m', Fp(t))
    ensures ManyShape(m', p, ek, t) && Elems(m', p, ek, t) == Elems(m, p, ek, t)
    decreases t
  {
    FrameMany(m, m', p, ek, t);
    if p != NULL {
      ElemsFrame(m, m', m[p].next, ek, t.a);
    }
  }

  /** A tree that owns allocated blocks only, none of them twice. */
  ghost predicate Owned(m: map<Ptr, Block>, t: Tree)
  {
    Disjoint(t) && Fp(t) <= m.Keys
  }

  /** The shape half of `ManyAddBuilds`. */
  lemma ManyAddShape(m: map<Ptr, Block>, m': map<Ptr, Block>, q: Ptr, next: Ptr, elem: Ptr, ek: Kind, tn: Tree, te: Tree)
    requires q != NULL
    requires ManyShape(m, next, ek, tn) && Shape(m, elem, ek, te)
    requires Fp(tn) <= m.Keys && Fp(te) <= m.Keys
    requires Agree(m, m', m.Keys) && q in m' && m'[q] == ManyNode(next, elem)
    ensures ManyShape(m', q, ek, Node(q, {}, tn, te, Nil, Nil, Nil))
  {
    FrameMany(m, m', next, ek, tn);
    Frame(m, m', elem, ek, te);
    var t := Node(q, {}, tn, te, Nil, Nil, Nil);
    assert ManyShape(m', q, ek, t);
  }

  /**
   * `many_add(elem, next)` on fresh `q` gives a well-formed list that owns
   * the new node, the old list and the element, and whose elements are
   * `elem` followed by the old ones.
   */
  lemma ManyAddBuilds(m: map<Ptr, Block>, m': map<Ptr, Block>, q: Ptr, next: Ptr, elem: Ptr, ek: Kind, tn: Tree, te: Tree)
    requires q != NULL
    requires ManyShape(m, next, ek, tn) && Shape(m, elem, ek, te)
    requires Fp(tn) <= m.Keys && Fp(te) <= m.Keys
    requires Agree(m, m', m.Keys) && q in m' && m'[q] == ManyNode(next, elem)
    ensures ManyShape(m', q, ek, Node(q, {}, tn, te, Nil, Nil, Nil))
    ensures Elems(m', q, ek, Node(q, {}, tn, te, Nil, Nil, Nil)) == [elem] + Elems(m, next, ek, tn)
  {
    ManyAddShape(m, m', q, next, elem, ek, tn, te);
    ElemsFrame(m, m', next, ek, tn);
  }

  /**
   * `field_get_create` and `field_get_idx_create` build a well-formed
   * access path owning its base and its name or index.
   */
  lemma FieldGetBuilds(m: map<Ptr, Block>, m': map<Ptr, Block>, q: Ptr, kind: int, e: Ptr, payload: Ptr, te: Tree, tp: Tree)
    requires q != NULL
    requires ExprShape(m, e, te)
    requires if kind == FIELD_GET_TYPE_IDX then ExprShape(m, payload, tp) else StrShape(m, payload, tp)
    requires Fp(te) <= m.Keys && Fp(tp) <= m.Keys
    requires Agree(m, m', m.Keys) && q in m' && m'[q] == FieldGetNode(kind, e, payload)
    ensures FieldGetShape(m', q, Node(q, {}, te, tp, Nil, Nil, Nil))
  {
    FrameExpr(m, m', e, te);
    if kind == FIELD_GET_TYPE_IDX {
      FrameExpr(m, m', payload, tp);
    } else {
      FrameStr(m, m', payload, tp);
    }
  }

  /**
   * `expr_binop_create` on fresh payload `w` and shell `q`: a well-formed
   * expression whose destructor frees both operands and the shell, and
   * leaves the payload struct allocated.
   */
  lemma ExprBinopBuilds(m: map<Ptr, Block>, m': map<Ptr, Block>, w: Ptr, q: Ptr, l: Ptr, r: Ptr, op: Ptr, tl: Tree, tr: Tree)
    requires w != NULL && q != NULL
    requires ExprShape(m, l, tl) && ExprShape(m, r, tr)
    requires Fp(tl) <= m.Keys && Fp(tr) <= m.Keys
    requires Agree(m, m', m.Keys) && w in m' && m'[w] == BinopNode(l, r, op) && q in m' && m'[q] == ExprShell(EXPR_TYPE_BINOP, w)
    ensures ExprShape(m', q, Node(q, {w}, tl, tr, Nil, Nil, Nil))
  {
    FrameExpr(m, m', l, tl);
    FrameExpr(m, m', r, tr);
    assert ExprPayload(m', EXPR_TYPE_BINOP, w, Node(q, {w}, tl, tr, Nil, Nil, Nil));
  }

  /** `expr_unary_create`: the operand is owned and freed; the payload struct is kept. */
  lemma ExprUnaryBuilds(m: map<Ptr, Block>, m': map<Ptr, Block>, w: Ptr, q: Ptr, op: char, e: Ptr, te: Tree)
    requires w != NULL && q != NULL
    requires ExprShape(m, e, te) && Fp(te) <= m.Keys
    requires Agree(m, m', m.Keys) && w in m' && m'[w] == UnaryNode(e, op) && q in m' && m'[q] == ExprShell(EXPR_TYPE_UNARY, w)
    ensures ExprShape(m', q, Node(q, {w}, te, Nil, Nil, Nil, Nil))
  {
    FrameExpr(m, m', e, te);
    assert ExprPayload(m', EXPR_TYPE_UNARY, w, Node(q, {w}, te, Nil, Nil, Nil, Nil));
  }

  /** `expr_call_create`: the callee path and the argument list are owned and freed. */
  lemma ExprCallBuilds(m: map<Ptr, Block>, m': map<Ptr, Block>, w: Ptr, q: Ptr, f: Ptr, args: Ptr, tf: Tree, ta: Tree)
    requires w != NULL && q != NULL
    requires FieldGetShape(m, f, tf) && ManyShape(m, args, KExpr, ta)
    requires Fp(tf) <= m.Keys && Fp(ta) <= m.Keys
    requires Agree(m, m', m.Keys) && w in m' && m'[w] == CallNode(f, args) && q in m' && m'[q] == ExprShell(EXPR_TYPE_CALL, w)
    ensures ExprShape(m', q, Node(q, {w}, tf, ta, Nil, Nil, Nil))
  {
    FrameFieldGet(m, m', f, tf);
    FrameMany(m, m', args, KExpr, ta);
    assert ExprPayload(m', EXPR_TYPE_CALL, w, Node(q, {w}, tf, ta, Nil, Nil, Nil));
  }

  /** `expr_field_get_create`: the access path is the payload and is freed with the shell. */
  lemma ExprFieldGetBuilds(m: map<Ptr, Block>, m': map<Ptr, Block>, q: Ptr, f: Ptr, tf: Tree)
    requires q != NULL && f != NULL
    requires FieldGetShape(m, f, tf) && Fp(tf) <= m.Keys
    requires Agree(m, m', m.Keys) && q in m' && m'[q] == ExprShell(EXPR_TYPE_FIELD, f)
    ensures ExprShape(m', q, Node(q, {}, tf, Nil, Nil, Nil, Nil))
  {
    FrameFieldGet(m, m', f, tf);
    assert ExprPayload(m', EXPR_TYPE_FIELD, f, Node(q, {}, tf, Nil, Nil, Nil, Nil));
  }

  /** `expr_lit_create`: the literal's text is owned and freed; the payload struct is kept. */
  lemma ExprLitBuilds(m: map<Ptr, Block>, m': map<Ptr, Block>, w: Ptr, q: Ptr, kind: int, lit: Ptr, tl: Tree)
    requires w != NULL && q != NULL
    requires StrShape(m, lit, tl) && Fp(tl) <= m.Keys
    requires Agree(m, m', m.Keys) && w in m' && m'[w] == LitNode(kind, lit) && q in m' && m'[q] == ExprShell(EXPR_TYPE_LIT, w)
    ensures ExprShape(m', q, Node(q, {w}, tl, Nil, Nil, Nil, Nil))
  {
    FrameStr(m, m', lit, tl);
    assert ExprPayload(m', EXPR_TYPE_LIT, w, Node(q, {w}, tl, Nil, Nil, Nil, Nil));
  }

  /** `expr_new_array_create`: the type name and the size are owned and freed. */
  lemma ExprNewArrayBuilds(m: map<Ptr, Block>, m': map<Ptr, Block>, w: Ptr, q: Ptr, ty: Ptr, size: Ptr, tt: Tree, ts: Tree)
    requires w != NULL && q != NULL
    requires StrShape(m, ty, tt) && ExprShape(m, size, ts)
    requires Fp(tt) <= m.Keys && Fp(ts) <= m.Keys
    requires Agree(m, m', m.Keys) && w in m' && m'[w] == NewArrNode(ty, size) && q in m' && m'[q] == ExprShell(EXPR_TYPE_NEW_ARR, w)
    ensures ExprShape(m', q, Node(q, {w}, tt, ts, Nil, Nil, Nil))
  {
    FrameStr(m, m', ty, tt);
    FrameExpr(m, m', size, ts);
    assert ExprPayload(m', EXPR_TYPE_NEW_ARR, w, Node(q, {w}, tt, ts, Nil, Nil, Nil));
  }

  /** `stmt_empty_create`: a shell that owns nothing else. */
  lemma StmtEmptyBuilds(m: map<Ptr, Block>, m': map<Ptr, Block>, q: Ptr)
    requires q != NULL
    requires Agree(m, m', m.Keys) && q in m' && m'[q] == StmtShell(STMT_TYPE_EMPTY, NULL)
    ensures StmtShape(m', q, Node(q, {}, Nil, Nil, Nil, Nil, Nil))
  {
    assert StmtPayload(m', STMT_TYPE_EMPTY, NULL, Node(q, {}, Nil, Nil, Nil, Nil, Nil));
  }

  /** `stmt_return_create` and `stmt_expr_create`: the expression is the payload and is freed. */
  lemma StmtExprBuilds(m: map<Ptr, Block>, m': map<Ptr, Block>, q: Ptr, tag: int, e: Ptr, te: Tree)
    requires q != NULL && (tag == STMT_TYPE_RETURN || tag == STMT_TYPE_EXPR)
    requires ExprShape(m, e, te) && Fp(te) <= m.Keys
    requires Agree(m, m', m.Keys) && q in m' && m'[q] == StmtShell(tag, e)
    ensures StmtShape(m', q, Node(q, {}, te, Nil, Nil, Nil, Nil))
  {
    FrameExpr(m, m', e, te);
    assert StmtPayload(m', tag, e, Node(q, {}, te, Nil, Nil, Nil, Nil));
  }

  /** `stmt_block_create`: the statement list is the payload and is freed. */
  lemma StmtBlockBuilds(m: map<Ptr, Block>, m': map<Ptr, Block>, q: Ptr, stmts: Ptr, ts: Tree)
    requires q != NULL
    requires ManyShape(m, stmts, KStmt, ts) && Fp(ts) <= m.Keys
    requires Agree(m, m', m.Keys) && q in m' && m'[q] == StmtShell(STMT_TYPE_BLOCK, stmts)
    ensures StmtShape(m', q, Node(q, {}, ts, Nil, Nil, Nil, Nil))
  {
    FrameMany(m, m', stmts, KStmt, ts);
    assert StmtPayload(m', STMT_TYPE_BLOCK, stmts, Node(q, {}, ts, Nil, Nil, Nil, Nil));
  }

  /** `stmt_var_decls_create`: the type name and the declarations are owned and freed. */
  lemma StmtVarDeclsBuilds(m: map<Ptr, Block>, m': map<Ptr, Block>, w: Ptr, q: Ptr, ty: Ptr, decls: Ptr, tt: Tree, td: Tree)
    requires w != NULL && q != NULL
    requires StrShape(m, ty, tt) && ManyShape(m, decls, KVarDecl, td)
    requires Fp(tt) <= m.Keys && Fp(td) <= m.Keys
    requires Agree(m, m', m.Keys) && w in m' && m'[w] == VarDeclsNode(ty, decls) && q in m' && m'[q] == StmtShell(STMT_TYPE_VAR_INIT, w)
    ensures StmtShape(m', q, Node(q, {w}, tt, td, Nil, Nil, Nil))
  {
    FrameStr(m, m', ty, tt);
    FrameMany(m, m', decls, KVarDecl, td);
    assert StmtPayload(m', STMT_TYPE_VAR_INIT, w, Node(q, {w}, tt, td, Nil, Nil, Nil));
  }

  /** `var_decl_create`: the name and the initialiser are owned and freed. */
  lemma VarDeclBuilds(m: map<Ptr, Block>, m': map<Ptr, Block>, q: Ptr, ident: Ptr, e: Ptr, ti: Tree, te: Tree)
    requires q != NULL
    requires StrShape(m, ident, ti) && ExprShape(m, e, te)
    requires Fp(ti) <= m.Keys && Fp(te) <= m.Keys
    requires Agree(m, m', m.Keys) && q in m' && m'[q] == VarDeclNode(ident, e)
    ensures VarDeclShape(m', q, Node(q, {}, ti, te, Nil, Nil, Nil))
  {
    FrameStr(m, m', ident, ti);
    FrameExpr(m, m', e, te);
  }

  /**
   * `stmt_assign_create`: the target path is freed with the statement, but
   * the assigned expression, though owned, never is.
   */
  lemma StmtAssignBuilds(m: map<Ptr, Block>, m': map<Ptr, Block>, w: Ptr, q: Ptr, f: Ptr, e: Ptr, tf: Tree, te: Tree)
    requires w != NULL && q != NULL
    requires FieldGetShape(m, f, tf) && ExprShape(m, e, te)
    requires Fp(tf) <= m.Keys && Fp(te) <= m.Keys
    requires Agree(m, m', m.Keys) && w in m' && m'[w] == AssignNode(f, e) && q in m' && m'[q] == StmtShell(STMT_TYPE_ASSIGN, w)
    ensures StmtShape(m', q, Node(q, {w}, tf, Nil, Nil, Nil, te))
  {
    FrameFieldGet(m, m', f, tf);
    FrameExpr(m, m', e, te);
    assert StmtPayload(m', STMT_TYPE_ASSIGN, w, Node(q, {w}, tf, Nil, Nil, Nil, te));
  }

  /** `stmt_postfix_create`: the target path is owned and freed. */
  lemma StmtPostfixBuilds(m: map<Ptr, Block>, m': map<Ptr, Block>, w: Ptr, q: Ptr, f: Ptr, isDecr: int, tf: Tree)
    requires w != NULL && q != NULL
    requires FieldGetShape(m, f, tf) && Fp(tf) <= m.Keys
    requires Agree(m, m', m.Keys) && w in m' && m'[w] == PostfixNode(f, isDecr) && q in m' && m'[q] == StmtShell(STMT_TYPE_POSTFIX, w)
    ensures StmtShape(m', q, Node(q, {w}, tf, Nil, Nil, Nil, Nil))
  {
    FrameFieldGet(m, m', f, tf);
    assert StmtPayload(m', STMT_TYPE_POSTFIX, w, Node(q, {w}, tf, Nil, Nil, Nil, Nil));
  }

  /** `stmt_if_create`: the condition and both branches are owned and freed. */
  lemma StmtIfBuilds(m: map<Ptr, Block>, m': map<Ptr, Block>, w: Ptr, q: Ptr, cond: Ptr, th: Ptr, el: Ptr, tc: Tree, tt: Tree, te: Tree)
    requires w != NULL && q != NULL
    requires ExprShape(m, cond, tc) && StmtShape(m, th, tt) && StmtShape(m, el, te)
    requires Fp(tc) <= m.Keys && Fp(tt) <= m.Keys && Fp(te) <= m.Keys
    requires Agree(m, m', m.Keys) && w in m' && m'[w] == IfNode(cond, th, el) && q in m' && m'[q] == StmtShell(STMT_TYPE_IF, w)
    ensures StmtShape(m', q, Node(q, {w}, tc, tt, te, Nil, Nil))
  {
    FrameExpr(m, m', cond, tc);
    FrameStmt(m, m', th, tt);
    FrameStmt(m, m', el, te);
    assert StmtPayload(m', STMT_TYPE_IF, w, Node(q, {w}, tc, tt, te, Nil, Nil));
  }

  /** `stmt_while_create`: the condition and the body are owned and freed. */
  lemma StmtWhileBuilds(m: map<Ptr, Block>, m': map<Ptr, Block>, w: Ptr, q: Ptr, cond: Ptr, body: Ptr, tc: Tree, tb: Tree)
    requires w != NULL && q != NULL
    requires ExprShape(m, cond, tc) && StmtShape(m, body, tb)
    requires Fp(tc) <= m.Keys && Fp(tb) <= m.Keys
    requires Agree(m, m', m.Keys) && w in m' && m'[w] == WhileNode(cond, body) && q in m' && m'[q] == StmtShell(STMT_TYPE_WHILE, w)
    ensures StmtShape(m', q, Node(q, {w}, tc, tb, Nil, Nil, Nil))
  {
    FrameExpr(m, m', cond, tc);
    FrameStmt(m, m', body, tb);
    assert StmtPayload(m', STMT_TYPE_WHILE, w, Node(q, {w}, tc, tb, Nil, Nil, Nil));
  }

  /** `stmt_for_create`: type, name, iterated array and body are owned and freed. */
  lemma StmtForBuilds(m: map<Ptr, Block>, m': map<Ptr, Block>, w: Ptr, q: Ptr, ty: Ptr, id: Ptr, it: Ptr, body: Ptr,
                      tt: Tree, ti: Tree, te: Tree, tb: Tree)
    requires w != NULL && q != NULL
    requires StrShape(m, ty, tt) && StrShape(m, id, ti) && ExprShape(m, it, te) && StmtShape(m, body, tb)
    requires Fp(tt) <= m.Keys && Fp(ti) <= m.Keys && Fp(te) <= m.Keys && Fp(tb) <= m.Keys
    requires Agree(m, m', m.Keys) && w in m' && m'[w] == ForNode(ty, id, it, body) && q in m' && m'[q] == StmtShell(STMT_TYPE_FOR, w)
    ensures StmtShape(m', q, Node(q, {w}, tt, ti, te, tb, Nil))
  {
    FrameStr(m, m', ty, tt);
    FrameStr(m, m', id, ti);
    FrameExpr(m, m', it, te);
    FrameStmt(m, m', body, tb);
    assert StmtPayload(m', STMT_TYPE_FOR, w, Node(q, {w}, tt, ti, te, tb, Nil));
  }

  /** `def_func_create` and `def_class_create`: the definition is the payload and is freed. */
  lemma DefBuilds(m: map<Ptr, Block>, m': map<Ptr, Block>, q: Ptr, tag: int, d: Ptr, td: Tree)
    requires q != NULL && d != NULL
    requires if tag == DEF_TYPE_FUNC then FuncShape(m, d, td) else tag == DEF_TYPE_CLASS && ClassShape(m, d, td)
    requires Fp(td) <= m.Keys
    requires Agree(m, m', m.Keys) && q in m' && m'[q] == DefShell(tag, d)
    ensures DefShape(m', q, Node(q, {}, td, Nil, Nil, Nil, Nil))
  {
    if tag == DEF_TYPE_FUNC {
      FrameFunc(m, m', d, td);
    } else {
      FrameClass(m, m', d, td);
    }
  }

  /** `func_create`: return type, name, parameters and body are owned and freed. */
  lemma FuncBuilds(m: map<Ptr, Block>, m': map<Ptr, Block>, q: Ptr, rt: Ptr, id: Ptr, ps: Ptr, body: Ptr,
                   tr: Tree, ti: Tree, tp: Tree, tb: Tree)
    requires q != NULL
    requires StrShape(m, rt, tr) && StrShape(m, id, ti) && ManyShape(m, ps, KVar, tp) && ManyShape(m, body, KStmt, tb)
    requires Fp(tr) <= m.Keys && Fp(ti) <= m.Keys && Fp(tp) <= m.Keys && Fp(tb) <= m.Keys
    requires Agree(m, m', m.Keys) && q in m' && m'[q] == FuncNode(rt, id, ps, body)
    ensures FuncShape(m', q, Node(q, {}, tr, ti, tp, tb, Nil))
  {
    FrameStr(m, m', rt, tr);
    FrameStr(m, m', id, ti);
    FrameMany(m, m', ps, KVar, tp);
    FrameMany(m, m', body, KStmt, tb);
  }

  /** `var_create`: type and name are owned and freed. */
  lemma VarBuilds(m: map<Ptr, Block>, m': map<Ptr, Block>, q: Ptr, ty: Ptr, id: Ptr, tt: Tree, ti: Tree)
    requires q != NULL
    requires StrShape(m, ty, tt) && StrShape(m, id, ti)
    requires Fp(tt) <= m.Keys && Fp(ti) <= m.Keys
    requires Agree(m, m', m.Keys) && q in m' && m'[q] == VarNode(ty, id)
    ensures VarShape(m', q, Node(q, {}, tt, ti, Nil, Nil, Nil))
  {
    FrameStr(m, m', ty, tt);
    FrameStr(m, m', id, ti);
  }

  /**
   * `class_create`: the name and the members are freed with the class, but
   * the superclass name, though owned, never is.
   */
  lemma ClassBuilds(m: map<Ptr, Block>, m': map<Ptr, Block>, q: Ptr, name: Ptr, super: Ptr, members: Ptr, tn: Tree, ts: Tree, tm: Tree)
    requires q != NULL
    requires StrShape(m, name, tn) && StrShape(m, super, ts) && ManyShape(m, members, KMember, tm)
    requires Fp(tn) <= m.Keys && Fp(ts) <= m.Keys && Fp(tm) <= m.Keys
    requires Agree(m, m', m.Keys) && q in m' && m'[q] == ClassNode(name, super, members)
    ensures ClassShape(m', q, Node(q, {}, tn, tm, Nil, Nil, ts))
  {
    FrameStr(m, m', name, tn);
    FrameStr(m, m', super, ts);
    FrameMany(m, m', members, KMember, tm);
  }

  /** `class_member_func_create` and `class_member_var_create`: the member is the payload and is freed. */
  lemma MemberBuilds(m: map<Ptr, Block>, m': map<Ptr, Block>, q: Ptr, tag: int, d: Ptr, td: Tree)
    requires q != NULL && d != NULL
    requires if tag == CLASS_MEMBER_TYPE_FUNC then FuncShape(m, d, td)
             else tag == CLASS_MEMBER_TYPE_VAR && VarShape(m, d, td)
    requires Fp(td) <= m.Keys
    requires Agree(m, m', m.Keys) && q in m' && m'[q] == MemberShell(tag, d)
    ensures MemberShape(m', q, Node(q, {}, td, Nil, Nil, Nil, Nil))
  {
    if tag == CLASS_MEMBER_TYPE_FUNC {
      FrameFunc(m, m', d, td);
    } else {
      FrameVar(m, m', d, td);
    }
  }

  /* ---------------------------------------------------------------------- */
  /* What every destructor frees and keeps.                                 */

  /**
   * A node built over fresh blocks from parts that are owned and share
   * nothing is owned too: a constructor never makes a block reachable twice.
   */
  lemma NodeOwned(m: map<Ptr, Block>, m': map<Ptr, Block>, t: Tree)
    requires t.Node? && t.addr != NULL && t.addr !in t.extra
    requires Owned(m, t.a) && Owned(m, t.b) && Owned(m, t.c) && Owned(m, t.d) && Owned(m, t.leak)
    requires Fp(t.a) !! Fp(t.b) + Fp(t.c) + Fp(t.d) + Fp(t.leak)
    requires Fp(t.b) !! Fp(t.c) + Fp(t.d) + Fp(t.leak)
    requires Fp(t.c) !! Fp(t.d) + Fp(t.leak)
    requires Fp(t.d) !! Fp(t.leak)
    requires m.Keys <= m'.Keys && {t.addr} + t.extra <= m'.Keys - m.Keys
    ensures Owned(m', t)
  {
  }

  /** `x` lies in at most one part of every node of the tree. */
  ghost predicate Once(t: Tree, x: Ptr)
  {
    match t
    case Nil => true
    case Node(p, e, a, b, c, d, l) =>
      && (x in Fp(a) ==> x !in Fp(b) && x !in Fp(c) && x !in Fp(d) && x !in Fp(l) && x != p && x !in e)
      && (x in Fp(b) ==> x !in Fp(c) && x !in Fp(d) && x !in Fp(l) && x != p && x !in e)
      && (x in Fp(c) ==> x !in Fp(d) && x !in Fp(l) && x != p && x !in e)
      && (x in Fp(d) ==> x !in Fp(l) && x != p && x !in e)
      && (x in e ==> x !in Fp(l) && x != p)
      && (x in Fp(l) ==> x != p)
      && Once(a, x) && Once(b, x) && Once(c, x) && Once(d, x)
  }

  lemma {:induction false} DisjointOnce(t: Tree, x: Ptr)
    requires Disjoint(t)
    ensures Once(t, x)
    decreases t
  {
    if t.Node? {
      DisjointOnce(t.a, x);
      DisjointOnce(t.b, x);
      DisjointOnce(t.c, x);
      DisjointOnce(t.d, x);
    }
  }

  /**
   * Every block an owned tree holds is either released by its destructor or
   * left allocated (a payload struct or a leaked child), never both.
   */
  lemma {:induction false} FreedKeptAt(t: Tree, x: Ptr)
    requires Once(t, x)
    ensures x in Fp(t) <==> x in Freed(t) || x in Kept(t)
    ensures !(x in Freed(t) && x in Kept(t))
    decreases t
  {
    match t
    case Nil =>
    case Node(p, _, a, b, c, d, _) =>
      FreedKeptAt(a, x);
      FreedKeptAt(b, x);
      FreedKeptAt(c, x);
      FreedKeptAt(d, x);
  }

  lemma FreedKept(t: Tree)
    requires Disjoint(t)
    ensures Freed(t) !! Kept(t)
    ensures Freed(t) + Kept(t) == Fp(t)
  {
    forall x ensures x in Fp(t) <==> x in Freed(t) || x in Kept(t) ensures !(x in Freed(t) && x in Kept(t)) {
      DisjointOnce(t, x);
      FreedKeptAt(t, x);
    }
  }

  /** How often the destructor of a tree passes `x` to `free`. */
  lemma {:induction false} TraceCount(t: Tree, x: Ptr)
    requires Once(t, x)
    ensures multiset(Trace(t))[x] == if x in Freed(t) then 1 else 0
    decreases t
  {
    match t
    case Nil =>
    case Node(p, _, a, b, c, d, _) =>
      TraceCount(a, x);
      TraceCount(b, x);
      TraceCount(c, x);
      TraceCount(d, x);
      assert multiset(Trace(t)) == multiset(Trace(a)) + multiset(Trace(b)) + multiset(Trace(c))
                                   + multiset(Trace(d)) + multiset([p]);
  }

  /**
   * No double free: the destructor of an owned tree passes each block of
   * `Freed` to `free` exactly once, and no other block.
   */
  lemma TraceExact(t: Tree)
    requires Disjoint(t)
    ensures forall x :: multiset(Trace(t))[x] == if x in Freed(t) then 1 else 0
  {
    forall x ensures multiset(Trace(t))[x] == if x in Freed(t) then 1 else 0 {
      DisjointOnce(t, x);
      TraceCount(t, x);
    }
  }
}
