# MRJ compilers in Dafny

A model of the core of majeski/MRJ, a student compiler in three generations, with proofs about it:

- **The C syntax-tree builder of Latte** (`latte/src/parser/*.c`), module `ParserC`.
  - The C heap is a class `Heap`: a map from pointers to blocks, a `mem_error` flag and a crash flag. A log of freed blocks is kept as a ghost field.
  - Every constructor allocates and may fail. Whether `malloc` succeeds is a parameter.
  - Every destructor frees exactly the blocks of the tree it is given, post-order, and never frees a block twice.
  - The source's leaks and quirks are modelled as they are.
- **The Latte middle end in Rust.**
  - The AST is one datatype that covers every revision of it (`LatteAst`).
  - The return-path analysis (`ReturnCheck`) and the class-hierarchy check (`ClassHierarchy`).
  - Both type checkers: the scoped environment (`TypeContexts`), the newer checker (`TypeCheck`) and the older one in `latte/src/types.rs` (`OldTypeCheck`).
  - String-literal collection (`StringLits`).
  - The optimiser (`Optimizer`). Expression folding is proved sound against a reference evaluator. The statement rewrites are proved to keep the return check and the set of string literals.
- **The code-generation structures.**
  - The mapping to LLVM types (`CGTypes`).
  - Field slots of a class (`ClassLayout`) and vtables (`Vtables`).
  - Hex escaping of string constants (`CodegenUtils`).
  - The line buffer with its counters (`CodeGen`) and the scoped codegen context (`CodegenContext`).
  - Decimal printing (`Decimal`).
- **The Instant compiler.**
  - The AST and its printer (`InstantAst`), with a reference reader that proves the printed text reads back (`InstantReader`).
  - The hand-written identifier scanner (`InstantParser`).
  - The defined-variable check (`InstantCheck`).
  - The meaning of a program (`InstantSemantics`).
  - A small JVM for the Jasmin instructions both backends emit (`Jasmin`).
  - The two JVM backends: `instant/src/jvm.rs` (`InstantJvm`) and the older `src/jvm.rs` (`RootJvm`).
    - For each backend it is proved that the compiled `main` prints what the program prints.
    - It is proved that the backend panics exactly when a name is read before it is assigned.
    - It is proved that the operand stack and the locals stay within the declared `.limit`s.

Code that changes state step by step is modelled as imperative Dafny: the heap of the C builder, the string collector, the codegen classes, the loops of the optimiser, the scanner, the checks and the backends. Every such method is proved against a function of its inputs. Pure tree recursions are datatypes, functions and lemmas.

## Model

| member | source | states |
|---|---|---|
| ParserC.Freed | latte/src/parser/expr.c:70-108 | the blocks a destructor releases lie inside the tree it owns and always include the node's own block |
| ParserC.Kept | latte/src/parser/expr.c:106-107 | the blocks a destructor leaves allocated (payload structs, leaked children) lie inside the tree it owns |
| ParserC.DropFreed | latte/src/parser/expr.c:70-108 | running a destructor takes exactly `Freed(t)` out of the live blocks |
| ParserC.LoggedTrace | latte/src/parser/expr.c:70-108 | running a destructor appends exactly `Trace(t)`, its post-order list of `free` calls, to the log |
| ParserC.Live | latte/src/parser/stmt.c:130-134 | while a node's children are destroyed one after another, each next child is still wholly live, and so is the node at the end |
| ParserC.Heap.constructor | latte/src/parser/common.h:7 | the heap starts with no blocks, `mem_error` clear and nothing freed |
| ParserC.Heap.Malloc | latte/src/parser/many.c:4 | on success a fresh block above every existing one becomes live; on failure the result is NULL and nothing changes |
| ParserC.Heap.Free | latte/src/parser/many.c:18 | `free(NULL)` does nothing; any other block must be live, and it leaves the live set and is logged once |
| ParserC.Heap.FreeStr | latte/src/parser/def.c:108-109 | freeing an owned string releases exactly its block |
| ParserC.Heap.Release | latte/src/parser/many.c:17 | a call through `free_f` runs the destructor of the element's kind, with that destructor's effect |
| ParserC.Heap.ManyFree | latte/src/parser/many.c:11-19 | NULL is a no-op; otherwise the tail, then the element through `free_f`, then the node: the live set loses exactly `Freed` and the log gains exactly `Trace` |
| ParserC.Heap.FieldGetFree | latte/src/parser/field_get.c:24-37 | NULL is a no-op; the base expression, then the payload with `expr_free` (IDX) or `free` (STD), then the node |
| ParserC.Heap.ExprFree | latte/src/parser/expr.c:70-108 | NULL is a no-op; a NULL payload frees the shell alone; otherwise the tag's children, then the shell; payload structs stay allocated |
| ParserC.Heap.ExprBinopFree | latte/src/parser/expr.c:81-84 | both operands, then the shell; the operator string and the payload struct stay allocated |
| ParserC.Heap.ExprUnaryFree | latte/src/parser/expr.c:85-87 | the operand, then the shell |
| ParserC.Heap.ExprCallFree | latte/src/parser/expr.c:88-91 | the callee path, then the argument list with `expr_free` as element destructor, then the shell |
| ParserC.Heap.ExprFieldFree | latte/src/parser/expr.c:92-93 | the payload itself is the access path and goes through `field_get_free` |
| ParserC.Heap.ExprLitFree | latte/src/parser/expr.c:94-96 | the literal's text, then the shell |
| ParserC.Heap.ExprNewArrFree | latte/src/parser/expr.c:97-100 | the element type name and the size expression, then the shell |
| ParserC.Heap.StmtFree | latte/src/parser/stmt.c:101-152 | NULL is a no-op; a NULL payload or EMPTY frees the shell alone; otherwise the tag's children, then the shell |
| ParserC.Heap.StmtVarInitFree | latte/src/parser/stmt.c:114-117 | the type name, then the declarators with `var_decl_free` |
| ParserC.Heap.StmtAssignFree | latte/src/parser/stmt.c:118-120 | only the target path; the assigned expression is never freed |
| ParserC.Heap.StmtPostfixFree | latte/src/parser/stmt.c:121-123 | the target path, then the shell |
| ParserC.Heap.StmtExprFree | latte/src/parser/stmt.c:124-129 | RETURN and EXPR free their payload with `expr_free` |
| ParserC.Heap.StmtBlockFree | latte/src/parser/stmt.c:126-127 | the payload is the statement list, freed with `stmt_free` as element destructor |
| ParserC.Heap.StmtIfFree | latte/src/parser/stmt.c:130-134 | the condition, the then-branch, the optional else-branch, then the shell |
| ParserC.Heap.StmtWhileFree | latte/src/parser/stmt.c:135-138 | the condition and the body, then the shell |
| ParserC.Heap.StmtForFree | latte/src/parser/stmt.c:139-144 | the element type, the name, the iterated expression and the body, then the shell |
| ParserC.Heap.VarDeclFree | latte/src/parser/stmt.c:154-163 | NULL is a no-op; the name and the optional initialiser, then the node |
| ParserC.Heap.DefFree | latte/src/parser/def.c:78-100 | NULL is a no-op; a NULL payload frees the shell alone; FUNC goes through `func_free`, CLASS through `class_free` |
| ParserC.Heap.FuncFree | latte/src/parser/def.c:102-113 | return type, name, parameters (with `var_free`), body (with `stmt_free`), then the struct |
| ParserC.Heap.ClassFree | latte/src/parser/def.c:115-124 | the name and the members (with `class_member_free`), then the struct; the superclass name is never freed |
| ParserC.Heap.ClassMemberFree | latte/src/parser/def.c:126-148 | NULL is a no-op; a NULL payload frees the shell alone; FUNC through `func_free`, VAR through `var_free` |
| ParserC.Heap.VarFree | latte/src/parser/def.c:150-159 | type, name, then the struct |
| ParserC.Heap.New | latte/src/parser/common.h:9-15 | one allocation with `CHECK_NULL`: on success a fresh live block holding the struct; on failure NULL with `mem_error` set and nothing else changed |
| ParserC.Heap.ManyCreate | latte/src/parser/many.c:3-9 | a fresh node with `next` NULL and `elem` the argument, or NULL with `mem_error` set |
| ParserC.Heap.ManyAdd | latte/src/parser/many.c:21-26 | a fresh node holding `elem` whose `next` is the old list; on failure NULL with `mem_error` set and neither argument freed |
| ParserC.Heap.FieldGetCreate | latte/src/parser/field_get.c:6-13 | a STD access storing the base (possibly NULL) and the name; on failure NULL with `mem_error` set |
| ParserC.Heap.FieldGetIdxCreate | latte/src/parser/field_get.c:15-22 | an IDX access whose payload is the index expression; on failure NULL with `mem_error` set |
| ParserC.Heap.ArrayTypeCreate | latte/src/parser/type.c:6-12 | a fresh string `[` followed by the type name in a block of `strlen(type) + 1` bytes, as written, and the bytes stored are one more than that size; the input is left as it was; on failure NULL with `mem_error` set |
| ParserC.Heap.ExprCreate | latte/src/parser/expr.c:62-68 | as written: a NULL payload gives NULL with `mem_error` set even when the shell was allocated (which then leaks); a failed shell with a payload stores through NULL |
| ParserC.Heap.ExprBox | latte/src/parser/expr.c:16-24 | the payload struct, then the shell tagged with the constructor's constant; a failed payload changes nothing but `mem_error`; a failed shell leaves the payload allocated |
| ParserC.Heap.ExprBinopCreate | latte/src/parser/expr.c:16-24 | tag BINOP over a payload holding `lhs`, `rhs` and `op` unchanged |
| ParserC.Heap.ExprUnaryCreate | latte/src/parser/expr.c:26-32 | tag UNARY over a payload holding the operand and the operator |
| ParserC.Heap.ExprCallCreate | latte/src/parser/expr.c:34-40 | tag CALL over a payload holding the callee path and the argument list |
| ParserC.Heap.ExprFieldGetCreate | latte/src/parser/expr.c:42-44 | tag FIELD with the access path itself as payload, through the `expr_create` quirk |
| ParserC.Heap.ExprLitCreate | latte/src/parser/expr.c:46-52 | tag LIT over a payload holding the literal kind and its text |
| ParserC.Heap.ExprNewArrayCreate | latte/src/parser/expr.c:54-60 | tag NEW_ARR over a payload holding the element type name and the size |
| ParserC.Heap.StmtCreate | latte/src/parser/stmt.c:93-99 | a fresh shell storing tag and payload, or NULL with `mem_error` set |
| ParserC.Heap.StmtBox | latte/src/parser/stmt.c:20-26 | the payload struct, then the shell; a failed payload changes nothing but `mem_error`; a failed shell leaves the payload allocated |
| ParserC.Heap.StmtEmptyCreate | latte/src/parser/stmt.c:16-18 | an EMPTY shell with a NULL payload |
| ParserC.Heap.StmtVarDeclsCreate | latte/src/parser/stmt.c:20-26 | tag VAR_INIT over a payload holding the type name and the declarators |
| ParserC.Heap.VarDeclCreate | latte/src/parser/stmt.c:28-34 | a fresh declarator holding the name and the optional initialiser |
| ParserC.Heap.StmtAssignCreate | latte/src/parser/stmt.c:36-42 | tag ASSIGN over a payload holding the target path and the value |
| ParserC.Heap.StmtPostfixCreate | latte/src/parser/stmt.c:44-50 | tag POSTFIX over a payload holding the target path and the decrement flag |
| ParserC.Heap.StmtReturnCreate | latte/src/parser/stmt.c:52-54 | tag RETURN with the expression itself as payload |
| ParserC.Heap.StmtBlockCreate | latte/src/parser/stmt.c:56-58 | tag BLOCK with the statement list itself as payload |
| ParserC.Heap.StmtExprCreate | latte/src/parser/stmt.c:60-62 | tag EXPR with the expression itself as payload |
| ParserC.Heap.StmtIfCreate | latte/src/parser/stmt.c:64-72 | tag IF over a payload holding condition, then-branch and else-branch |
| ParserC.Heap.StmtWhileCreate | latte/src/parser/stmt.c:74-80 | tag WHILE over a payload holding condition and body |
| ParserC.Heap.StmtForCreate | latte/src/parser/stmt.c:82-91 | tag FOR over a payload holding element type, name, iterated expression and body |
| ParserC.Heap.DefCreate | latte/src/parser/def.c:19-25 | a fresh shell storing tag and definition, or NULL with `mem_error` set |
| ParserC.Heap.DefFuncCreate | latte/src/parser/def.c:11-13 | tag FUNC (1) |
| ParserC.Heap.DefClassCreate | latte/src/parser/def.c:15-17 | tag CLASS (2) |
| ParserC.Heap.FuncCreate | latte/src/parser/def.c:27-36 | a fresh struct holding return type, name, parameters and body unchanged |
| ParserC.Heap.VarCreate | latte/src/parser/def.c:38-44 | a fresh struct holding type and name |
| ParserC.Heap.ClassCreate | latte/src/parser/def.c:46-53 | a fresh struct holding name, superclass (possibly NULL) and members |
| ParserC.Heap.ClassMemberCreate | latte/src/parser/def.c:65-71 | a fresh shell storing tag and member, or NULL with `mem_error` set |
| ParserC.Heap.ClassMemberFuncCreate | latte/src/parser/def.c:57-59 | tag FUNC (10) |
| ParserC.Heap.ClassMemberVarCreate | latte/src/parser/def.c:61-63 | tag VAR (11) |
| ParserC.ArrayTypeName | latte/src/parser/type.c:9-10 | the built name is one longer than the input, starts with `[`, and the input follows from index 1 |
| ParserC.ArrayTypeBytes | latte/src/parser/type.c:9-10 | the bytes stored are that name and a terminating NUL, `strlen + 2` in all |
| ParserC.ArrayTypeSize | latte/src/parser/type.c:7 | the corrected buffer size is exactly the number of bytes stored |
| ParserC.ArrayTypeOverrun | latte/src/parser/type.c:7-10 | as written, every call stores one byte more than `strlen + 1`, the size it allocates |
| ParserC.ArrayTypeOverrunInt | latte/src/parser/type.c:7-10 | for `int`: five bytes into a four-byte buffer |
| ParserC.ElemsFrame | latte/src/parser/many.c:11-19 | a list's elements depend only on the blocks the list owns |
| ParserC.ManyAddShape | latte/src/parser/many.c:21-26 | prepending to a well-formed list on a fresh node gives a well-formed list |
| ParserC.ManyAddBuilds | latte/src/parser/many.c:21-26 | the list built by `many_add` traverses as `elem` followed by the old list's elements |
| ParserC.FieldGetBuilds | latte/src/parser/field_get.c:6-22 | both access constructors build a well-formed path that owns its base and its name or index |
| ParserC.ExprBinopBuilds | latte/src/parser/expr.c:16-24 | the built expression owns both operands, and its destructor frees them and the shell but not the payload struct |
| ParserC.ExprUnaryBuilds | latte/src/parser/expr.c:26-32 | the operand is owned and freed; the payload struct is kept |
| ParserC.ExprCallBuilds | latte/src/parser/expr.c:34-40 | the callee path and the argument list are owned and freed |
| ParserC.ExprFieldGetBuilds | latte/src/parser/expr.c:42-44 | the access path is the payload and is freed with the shell |
| ParserC.ExprLitBuilds | latte/src/parser/expr.c:46-52 | the literal's text is owned and freed; the payload struct is kept |
| ParserC.ExprNewArrayBuilds | latte/src/parser/expr.c:54-60 | the type name and the size are owned and freed |
| ParserC.StmtEmptyBuilds | latte/src/parser/stmt.c:16-18 | the empty statement owns only its shell |
| ParserC.StmtExprBuilds | latte/src/parser/stmt.c:52-62 | RETURN and EXPR own their expression as payload and free it |
| ParserC.StmtBlockBuilds | latte/src/parser/stmt.c:56-58 | a block owns its statement list as payload and frees it |
| ParserC.StmtVarDeclsBuilds | latte/src/parser/stmt.c:20-26 | the type name and the declarators are owned and freed |
| ParserC.VarDeclBuilds | latte/src/parser/stmt.c:28-34 | the name and the initialiser are owned and freed |
| ParserC.StmtAssignBuilds | latte/src/parser/stmt.c:36-42 | the target path is freed with the statement; the value, though owned, never is |
| ParserC.StmtPostfixBuilds | latte/src/parser/stmt.c:44-50 | the target path is owned and freed |
| ParserC.StmtIfBuilds | latte/src/parser/stmt.c:64-72 | the condition and both branches are owned and freed |
| ParserC.StmtWhileBuilds | latte/src/parser/stmt.c:74-80 | the condition and the body are owned and freed |
| ParserC.StmtForBuilds | latte/src/parser/stmt.c:82-91 | type, name, iterated expression and body are owned and freed |
| ParserC.DefBuilds | latte/src/parser/def.c:11-25 | a definition owns its function or class as payload and frees it |
| ParserC.FuncBuilds | latte/src/parser/def.c:27-36 | return type, name, parameters and body are owned and freed |
| ParserC.VarBuilds | latte/src/parser/def.c:38-44 | type and name are owned and freed |
| ParserC.ClassBuilds | latte/src/parser/def.c:46-53 | the name and members are freed with the class; the superclass name, though owned, never is |
| ParserC.MemberBuilds | latte/src/parser/def.c:57-71 | a class member owns its function or field as payload and frees it |
| ParserC.NodeOwned | latte/src/parser/expr.c:16-24 | a node built on fresh blocks from parts that share nothing is a tree: no block becomes reachable twice |
| ParserC.FreedKeptAt | latte/src/parser/expr.c:106-107 | each block a tree owns is either released by its destructor or left allocated, never both |
| ParserC.FreedKept | latte/src/parser/expr.c:106-107 | the freed and kept blocks split the owned blocks exactly |
| ParserC.TraceCount | latte/src/parser/many.c:16-18 | the destructor passes a block to `free` once if it is in `Freed`, otherwise never |
| ParserC.TraceExact | latte/src/parser/many.c:16-18 | no double free: every block of `Freed` is passed to `free` exactly once, and no other block is |
| LatteAst.ParamTypes | latte/src/ast.rs:28 | one type per parameter, each the parameter's declared type, in declaration order |
| LatteAst.FuncType | latte/src/ast.rs:26-30 | `Func::get_type` is a function type whose parameters are the declared parameter types in order and whose result is the return type |
| LatteAst.BuiltinType | latte/src/ast.rs:40-44 | `BuiltinFunc::get_type` is `TFunc(args, ret_type)` |
| LatteAst.BuiltinNames | latte/src/builtins.rs:3-5 | one name per builtin, in table order |
| LatteAst.BuiltinsTable | latte/src/builtins.rs:3-45 | exactly five builtins, in the order printInt, printString, error, readInt, readString, with distinct names; printInt takes int and printString string, both returning void; error takes nothing and returns void; readInt and readString take nothing and return int and string |
| ReturnCheck.StmtReturnsIffNoFallThrough | latte/src/static_analysis/has_return.rs:19-29 | a statement counts as returning exactly when no path can fall through it (returns, blocks that return, if-else with both branches returning; `if`, `while` and the rest never count) |
| ReturnCheck.StmtsReturnIffNoFallThrough | latte/src/static_analysis/has_return.rs:13-17 | a list returns exactly when some statement of it stops every path |
| ReturnCheck.StmtsReturnIffSome | latte/src/static_analysis/has_return.rs:13-17 | a list returns exactly when one of its statements returns |
| ReturnCheck.CheckMethodsSpec | latte/src/static_analysis/return_check.rs:14-20 | a class passes exactly when all its methods return; otherwise the error names the class and the first offending method |
| ReturnCheck.RunOkIff | latte/src/static_analysis/return_check.rs:6-24 | the pass succeeds exactly when every function returns (void counts as returning) and every method of every class does |
| ReturnCheck.RunReportsFirst | latte/src/static_analysis/return_check.rs:6-24 | a failure is the first offending definition in program order, everything before it passing, and only a method error carries a class name |
| ClassHierarchy.ClassDefs | latte/src/static_analysis/class_hierarchy_check.rs:5-13 | exactly the class definitions of the program take part, no more of them than definitions |
| ClassHierarchy.Table | latte/src/static_analysis/class_hierarchy_check.rs:22-31 | the table's keys are the class names and each name maps to a class of that name |
| ClassHierarchy.GetClasses | latte/src/static_analysis/class_hierarchy_check.rs:22-31 | succeeds exactly when the names are distinct, then maps each name to its class; otherwise reports "Multiple classes" for the first name seen twice |
| ClassHierarchy.CheckSuperclassesSpec | latte/src/static_analysis/class_hierarchy_check.rs:33-42 | passes exactly when every superclass names a class, in any iteration order; a failure names an undefined superclass |
| ClassHierarchy.Iter | latte/src/static_analysis/class_hierarchy_check.rs:65-67 | the ancestor `n` steps up is a class of the table, or None past a root |
| ClassHierarchy.CycleNoRoot | latte/src/static_analysis/class_hierarchy_check.rs:57-60 | a class on a cycle never reaches a root |
| ClassHierarchy.Revisit | latte/src/static_analysis/class_hierarchy_check.rs:57-60 | meeting the same class twice in one walk closes a cycle through it |
| ClassHierarchy.PathReach | latte/src/static_analysis/class_hierarchy_check.rs:61 | when a walk ends at a class that reaches a root, every class it marked reaches a root too |
| ClassHierarchy.Visit | latte/src/static_analysis/class_hierarchy_check.rs:52-71 | marks the walk's classes with `step`; a class already marked with the same step is a cycle error, one marked by an earlier walk ends the walk without error; each call marks a new class, so it terminates |
| ClassHierarchy.CheckHierarchy | latte/src/static_analysis/class_hierarchy_check.rs:44-50 | fails, with the cycle error, exactly when the superclass links contain a cycle, whatever the iteration order |
| ClassHierarchy.NoCycle | latte/src/static_analysis/class_hierarchy_check.rs:44-50 | when every class reaches a root there is no cycle |
| ClassHierarchy.CheckClassHierarchy | latte/src/static_analysis/class_hierarchy_check.rs:15-20 | duplicates are reported first, then an undefined superclass, then a cycle; with distinct names and defined superclasses it fails exactly on a cycle |
| ClassHierarchy.Run | latte/src/static_analysis/class_hierarchy_check.rs:5-13 | the same three outcomes, over the program's class definitions only |
| TypeErrors.Fail | latte/src/static_analysis/type_error.rs:111-116 | a new error carries its kind and an empty stack of places |
| TypeErrors.Wrapped | latte/src/static_analysis/type_error.rs:23-26 | wrapping keeps the error's kind and pushes exactly one place on top of the old stack |
| TypeErrors.WrapErr | latte/src/types.rs:180-182 | `map_err(wrapped)` leaves a success and its value alone and wraps an error with the given place |
| TypeErrors.WrapTwice | latte/src/static_analysis/type_error.rs:23-26 | two wraps record both places, innermost first, and keep the kind |
| TypeContexts.Demote | latte/src/static_analysis/type_context.rs:35-43 | a new scope has the same names with the same types, and none of them is local |
| TypeContexts.TypeOf | latte/src/static_analysis/type_context.rs:45-47 | a name has a type exactly when it is bound, and it is the bound type |
| TypeContexts.DemoteKeepsTypes | latte/src/static_analysis/type_context.rs:35-47 | opening a scope hides no name, changes no type and leaves nothing local |
| TypeContexts.DemoteIdempotent | latte/src/static_analysis/type_context.rs:35-43 | opening a scope inside a fresh scope gives the same bindings |
| TypeContexts.ShadowInNewScope | latte/src/static_analysis/type_context.rs:35-55 | in a new scope any name may be declared again; it then has the new type and is local, and every other name keeps its type |
| TypeContexts.TypeContext.constructor | latte/src/static_analysis/type_context.rs:13-18 | a new context has no bindings and the return type void |
| TypeContexts.TypeContext.NewScope | latte/src/static_analysis/type_context.rs:20-25 | the scope handed to the closure is a fresh copy with demoted bindings and the same return type |
| TypeContexts.TypeContext.FunctionScope | latte/src/static_analysis/type_context.rs:27-33 | a function scope is a fresh demoted copy whose return type is the function's |
| TypeContexts.TypeContext.Get | latte/src/static_analysis/type_context.rs:45-47 | the bound type, and None exactly for an unbound name |
| TypeContexts.TypeContext.IsLocal | latte/src/static_analysis/type_context.rs:49-51 | true exactly for a name bound in the current scope; false for an unbound name |
| TypeContexts.TypeContext.Set | latte/src/static_analysis/type_context.rs:53-55 | afterwards the name has the given type and is local; every other name keeps its type and locality, and the return type is unchanged |
| OldTypeCheck.ExpectExact | latte/src/types.rs:363-369 | passes exactly when the two types are equal, returning that type; otherwise the invalid-type error with an empty stack |
| OldTypeCheck.BinOpTypingOld | latte/src/types.rs:295-322 | a binary expression is typed exactly when its operand types fit the operator, and then has the operator's result type; `==` and `!=` accept ints only |
| OldTypeCheck.BinOpTypeOldTable | latte/src/types.rs:295-322 | given the operand types, the operator rules of this revision (without `%`) accept exactly the operand types of the reference table and give its result type |
| OldTypeCheck.CheckArgsOldSpec | latte/src/types.rs:333-338 | the argument loop passes exactly when every argument from the given index on has exactly its parameter's type |
| OldTypeCheck.CallTypingOld | latte/src/types.rs:328-343 | a call is typed exactly when the callee is bound to a function with as many parameters as arguments, each matching; its type is the return type; a non-function and a wrong count give their errors |
| OldTypeCheck.IntroduceSpec | latte/src/types.rs:378-385 | introducing fails with already-defined exactly when the name is local, leaving the scope alone; otherwise binds it locally and changes no other name |
| OldTypeCheck.IntroduceName | latte/src/types.rs:378-385 | the method's outcome and new bindings are those of the specification of `introduce_name`; the return type is unchanged |
| OldTypeCheck.IntroduceVar | latte/src/types.rs:263-281 | a declaration with or without initialiser changes the context as its specification says, the initialiser being checked before the name is introduced |
| OldTypeCheck.IntroduceVars | latte/src/types.rs:218-222 | the declarations of one statement are introduced in order, stopping at the first error |
| OldTypeCheck.CheckStmtOld | latte/src/types.rs:207-261 | each statement kind is checked as its specification says, and the context ends as the specification says |
| OldTypeCheck.CheckInNewScopeOld | latte/src/types.rs:214-217 | a block is checked in a demoted copy of the scope, and its outcome is that of the statements in it |
| OldTypeCheck.CheckStmtsOld | latte/src/types.rs:198-205 | the statements are checked in order in one scope, stopping at the first error |
| OldTypeCheck.StmtScopeOld | latte/src/types.rs:213-258 | every statement other than a declaration leaves the scope exactly as it was, so a block's declarations are gone after it |
| OldTypeCheck.DeclsBindOld | latte/src/types.rs:218-222 | a declaration that passes binds each of its names locally with the declared type |
| OldTypeCheck.DeclsKeepLocal | latte/src/types.rs:218-222 | a local name stays local with the same type through later declarations that pass |
| OldTypeCheck.IntroduceParams | latte/src/types.rs:188-190 | the parameters are introduced one by one, so a repeated parameter name is an already-defined error |
| OldTypeCheck.CheckFuncOld | latte/src/types.rs:184-195 | a function is checked in a function scope, parameters then body, and an error is placed inside the definition |
| OldTypeCheck.ProgramEnvBinds | latte/src/types.rs:155-161 | every function name is bound when the bodies are checked, whatever the order; a name declared twice keeps the last declaration's type |
| OldTypeCheck.ProgramEnvKeeps | latte/src/types.rs:155-161 | a name that no function declares keeps its outer binding |
| OldTypeCheck.Funcs | latte/src/types.rs:155-158 | the functions of the program, one per definition, in order |
| OldTypeCheck.CheckProgramOld | latte/src/types.rs:150-168 | the program passes exactly when every function checks in the scope of all function types; otherwise the result is the first failing function's error |
| OldTypeCheck.CheckTypes | latte/src/types.rs:7-9 | `check_types` passes exactly when every function checks in the scope of all function types, starting from no bindings |
| TypeCheck.ClassScopeFieldType | latte/src/static_analysis/type_check.rs:383-394 | a name looked up inside a class scope has exactly the type the member lookup through the superclass chain finds, and is never local there |
| TypeCheck.SubclassHasMembers | latte/src/static_analysis/type_check.rs:446-451 | an object of a subclass has every member its superclass has, so it may stand where the superclass is expected |
| TypeCheck.ExpectValidType | latte/src/static_analysis/type_check.rs:434-444 | a type is accepted exactly when it is valid (an object type names a registered class); otherwise the inexistent-type error |
| TypeCheck.ExpectDeclarableType | latte/src/static_analysis/type_check.rs:423-432 | accepted exactly for a valid int, string, boolean or object type; a valid other type gives the non-declarable error |
| TypeCheck.ExpectType | latte/src/static_analysis/type_check.rs:416-421 | on success the expected type; on failure the invalid-type error naming both types |
| TypeCheck.ExpectTypeSpec | latte/src/static_analysis/type_check.rs:416-421 | a value fits exactly when the types are equal, or an object is expected and the value is null or an object of a subclass; for non-object expectations only equality fits |
| TypeCheck.IdentType | latte/src/static_analysis/type_check.rs:397-404 | a name has a type exactly when it is bound, the bound type; otherwise the undefined error |
| TypeCheck.AddTypes | latte/src/static_analysis/type_check.rs:359-365 | `+` is typed exactly for two ints or two strings, with that type |
| TypeCheck.BinOpTyping | latte/src/static_analysis/type_check.rs:309-337 | a binary expression is typed exactly when its operands fit the operator (ints for arithmetic, `%`, comparisons, `==` and `!=`; booleans for `&&` and `\|\|`), and then has the operator's result type |
| TypeCheck.BinOpTypeTable | latte/src/static_analysis/type_check.rs:309-337 | given the operand types, the operator rules accept exactly the operand types of the reference table and give its result type, whatever the class table |
| TypeCheck.ExprType | latte/src/static_analysis/type_check.rs:297-340 | `Expr::check_types`: when an expression fails to check, the error's outermost place is that expression |
| TypeCheck.UnaryTyping | latte/src/static_analysis/type_check.rs:307-308 | negation is typed exactly for an int and `!` exactly for a boolean, each giving its operand's type |
| TypeCheck.CheckArgsSpec | latte/src/static_analysis/type_check.rs:347-352 | the argument loop passes exactly when every argument from the given index on fits its parameter |
| TypeCheck.CallTyping | latte/src/static_analysis/type_check.rs:342-357 | a call is typed exactly when the callee is a function whose parameters the arguments fit one by one, with the return type; a non-function and a wrong count give their errors |
| TypeCheck.FieldGetTyping | latte/src/static_analysis/type_check.rs:378-395 | a plain name has its bound type; `a.f` needs `a` to be an object and is typed as `f` inside that object's class scope |
| TypeCheck.AddIdentSpec | latte/src/static_analysis/type_check.rs:406-414 | adding a name succeeds exactly when its type is valid and it is not local, binding it locally; a failure leaves the scope unchanged, and a valid type fails with already-defined |
| TypeCheck.AddIdent | latte/src/static_analysis/type_check.rs:406-414 | the method's outcome and new bindings are those of the specification of `add_ident`; the return type is unchanged |
| TypeCheck.CheckDecl | latte/src/static_analysis/type_check.rs:277-295 | a declaration changes the context as its specification says: the initialiser is checked before the name is added |
| TypeCheck.CheckDecls | latte/src/static_analysis/type_check.rs:234-239 | the declarations of one statement, in order, stopping at the first error |
| TypeCheck.CheckStmt | latte/src/static_analysis/type_check.rs:223-275 | each statement kind is checked and changes the context as its specification says |
| TypeCheck.StmtSpec | latte/src/static_analysis/type_check.rs:223-275 | `Stmt::check_types` as a function of the scope, with no contract of its own; `TypeCheck.StmtScope` and `TypeCheck.StmtErrorPlace` state what it promises |
| TypeCheck.StmtErrorPlace | latte/src/static_analysis/type_check.rs:224-226 | when a statement fails to check, the error's outermost place is that statement |
| TypeCheck.CheckInNewScope | latte/src/static_analysis/type_check.rs:231-233 | a nested statement is checked in a demoted copy of the scope, which the enclosing context never sees |
| TypeCheck.CheckStmts | latte/src/static_analysis/type_check.rs:214-221 | the statements in order in one scope, stopping at the first error |
| TypeCheck.DeclsBind | latte/src/static_analysis/type_check.rs:234-239 | a declaration statement passes only with pairwise distinct names none of which was local before, and binds each locally with its type |
| TypeCheck.DeclsKeepOthers | latte/src/static_analysis/type_check.rs:234-239 | a name a declaration statement does not declare keeps its type and locality |
| TypeCheck.DeclsOnlyLocal | latte/src/static_analysis/type_check.rs:234-239 | a declaration statement changes only bindings of the current scope |
| TypeCheck.StmtScope | latte/src/static_analysis/type_check.rs:228-272 | only a declaration changes the scope it is checked in; blocks and branch bodies leave it exactly as it was |
| TypeCheck.StmtsOnlyLocal | latte/src/static_analysis/type_check.rs:214-221 | a statement list never alters or removes a binding of an enclosing scope |
| TypeCheck.ReturnTyping | latte/src/static_analysis/type_check.rs:250-253 | `return e;` passes exactly when `e` fits the return type |
| TypeCheck.VoidReturnTyping | latte/src/static_analysis/type_check.rs:254-256 | `return;` passes exactly in a void function |
| TypeCheck.SimpleStmtVerdict | latte/src/static_analysis/type_check.rs:240-259 | the verdict on an assignment, `++`, `--`, a return or an expression statement is that of its rule |
| TypeCheck.VarsDistinct | latte/src/static_analysis/type_check.rs:175-180 | a parameter list passes exactly when its names are pairwise distinct and its types valid and declarable |
| TypeCheck.VarsFailOnRepeat | latte/src/static_analysis/type_check.rs:201-211 | a parameter whose name is already local fails, wherever it comes in the list |
| TypeCheck.CheckVar | latte/src/static_analysis/type_check.rs:201-211 | a variable changes the context as its specification says: a declarable type, then the name is added |
| TypeCheck.CheckVars | latte/src/static_analysis/type_check.rs:175-180 | the parameters in order, stopping at the first error |
| TypeCheck.CheckFunc | latte/src/static_analysis/type_check.rs:185-199 | a function is checked in a function scope, parameters then body, its error placed inside the function |
| TypeCheck.CheckSignature | latte/src/static_analysis/type_check.rs:167-183 | the signature's outcome is its specification's |
| TypeCheck.SignatureRule | latte/src/static_analysis/type_check.rs:173-182 | a signature passes exactly when the return type is valid and the parameters are distinct and declarable |
| TypeCheck.VarOverridesSpec | latte/src/static_analysis/type_check.rs:131-136 | the field loop passes exactly when no field name is a member of the superclass chain |
| TypeCheck.MethodOverridesSpec | latte/src/static_analysis/type_check.rs:138-146 | the method loop passes exactly when every method is new or has exactly the type of the inherited member |
| TypeCheck.OverrideRules | latte/src/static_analysis/type_check.rs:131-147 | a class that passes redefines no inherited member as a field, and an inherited member as a method only with the same type |
| TypeCheck.CheckSignatures | latte/src/static_analysis/type_check.rs:127-129 | the method signatures in order, stopping at the first error |
| TypeCheck.CheckClassFields | latte/src/static_analysis/type_check.rs:115-150 | fields, then signatures, then the override rules; the outcome is the specification's |
| TypeCheck.ClassBodyScopeSees | latte/src/static_analysis/type_check.rs:157-164 | inside a class body nothing is local, and a member of the class shadows an outer name |
| TypeCheck.CheckClass | latte/src/static_analysis/type_check.rs:152-165 | every method checked in a function scope inside the class scope; the outcome is the specification's |
| TypeCheck.VarMembers | latte/src/static_analysis/type_check.rs:78-83 | one member per field, with the field's type, in order |
| TypeCheck.MethodMembers | latte/src/static_analysis/type_check.rs:84-89 | one member per method, with the method's function type, in order |
| TypeCheck.CollectMembersOk | latte/src/static_analysis/type_check.rs:77-89 | the member table is built exactly when no member repeats or clashes with one present |
| TypeCheck.CollectMembersContents | latte/src/static_analysis/type_check.rs:77-89 | a built member table keeps what was present and maps each member, and nothing else, to its type |
| TypeCheck.CollectVars | latte/src/static_analysis/type_check.rs:78-83 | the field loop builds the table its specification gives |
| TypeCheck.CollectMethods | latte/src/static_analysis/type_check.rs:84-89 | the method loop builds the table its specification gives |
| TypeCheck.AddClass | latte/src/static_analysis/type_check.rs:72-92 | a class is registered exactly when its specification passes, with that table; on failure the class table is unchanged |
| TypeCheck.ClassesOf | latte/src/static_analysis/type_check.rs:60-70 | exactly the program's classes |
| TypeCheck.FuncsOf | latte/src/static_analysis/type_check.rs:60-70 | exactly the program's functions |
| TypeCheck.DivideDefinitions | latte/src/static_analysis/type_check.rs:60-70 | the classes and the functions, each in program order |
| TypeCheck.BindAllSpec | latte/src/static_analysis/type_check.rs:35-37 | after a run of bindings succeeds every name has its type and is local, what was local already is untouched, and no other name appeared |
| TypeCheck.BuiltinBindings | latte/src/static_analysis/type_check.rs:35-37 | one binding per builtin, with its function type |
| TypeCheck.AddBuiltins | latte/src/static_analysis/type_check.rs:35-37 | the builtins are added to the scope as their specification says |
| TypeCheck.ClassTableKeys | latte/src/static_analysis/type_check.rs:72-92 | when every class has an entry, the table built in order has exactly the classes' names as keys |
| TypeCheck.ClassTableEntries | latte/src/static_analysis/type_check.rs:72-92 | each name maps to the superclass and member table of the last class of that name, since a later `add_class` replaces an earlier one |
| TypeCheck.AddClasses | latte/src/static_analysis/type_check.rs:40-42 | succeeds exactly when every class has an entry, and then the table is the one built in order, with each last class of a name mapped to its superclass and member table; otherwise the error is that of the first failing class |
| TypeCheck.CheckAllClassFields | latte/src/static_analysis/type_check.rs:43-45 | passes exactly when every class's fields pass; otherwise the first failing class's error |
| TypeCheck.FuncDeclsBind | latte/src/static_analysis/type_check.rs:47-50 | when every signature passes, declaring the functions binds each name to its type |
| TypeCheck.DeclareFunction | latte/src/static_analysis/type_check.rs:48-49 | a signature check then the name's binding, as the specification says |
| TypeCheck.DeclareFunctions | latte/src/static_analysis/type_check.rs:47-50 | the functions in order, stopping at the first error |
| TypeCheck.CheckDef | latte/src/static_analysis/type_check.rs:106-113 | a definition's outcome is that of its class or function |
| TypeCheck.CheckDefs | latte/src/static_analysis/type_check.rs:52-54 | passes exactly when every definition passes; otherwise the first failing definition's error |
| TypeCheck.CheckMain | latte/src/static_analysis/type_check.rs:94-104 | passes exactly when `main` is bound to `() -> int`; an unbound `main` is no-main, any other type invalid-main-type |
| TypeCheck.ClassTableFacts | latte/src/static_analysis/type_check.rs:39-45 | registering and checking every class gives a well-formed class table |
| TypeCheck.CheckProgram | latte/src/static_analysis/type_check.rs:33-58 | a program that passes has every builtin and function bound to its type, a class table mapping each class to its superclass and member table, every definition passing against that table, and `main` of type `() -> int` |
| TypeCheck.BuiltinsBound | latte/src/static_analysis/type_check.rs:35-50 | the builtins, added first, survive the functions' declarations with their types |
| TypeCheck.FunctionsBound | latte/src/static_analysis/type_check.rs:47-50 | every declared function is bound to its type |
| TypeCheck.NoOtherNames | latte/src/static_analysis/type_check.rs:35-50 | no name but a builtin's or a function's is added |
| TypeCheck.ProgramScope | latte/src/static_analysis/type_check.rs:35-50 | the scope of a program that passes is built from the builtins and then the functions |
| TypeCheck.MainNotBuiltin | latte/src/builtins.rs:3-45 | no builtin is called `main` |
| TypeCheck.MainIsAFunction | latte/src/static_analysis/type_check.rs:47-55 | in a scope built from nothing, a `main` of type `() -> int` is a function of the program with no parameters returning int |
| TypeCheck.Run | latte/src/static_analysis/type_check.rs:11-15 | a program that passes has a function `main` with no parameters that returns int |
| StringLits.LitStrings | latte/src/static_analysis/collect_string_lit.rs:119-125 | a string literal contributes exactly its text; every other literal nothing |
| StringLits.Collector.constructor | latte/src/static_analysis/collect_string_lit.rs:6-7 | the collection starts empty |
| StringLits.Collector.Lit | latte/src/static_analysis/collect_string_lit.rs:119-125 | the set grows by exactly the literal's strings |
| StringLits.Collector.Expr | latte/src/static_analysis/collect_string_lit.rs:103-117 | the set grows by exactly the strings of the expression's literals, call arguments and operands included |
| StringLits.Collector.Exprs | latte/src/static_analysis/collect_string_lit.rs:16-24 | the set grows by the strings of every expression of the list |
| StringLits.Collector.Decl | latte/src/static_analysis/collect_string_lit.rs:92-101 | the set grows by the initialiser's strings, and by the empty string for a string declared without one |
| StringLits.Collector.Decls | latte/src/static_analysis/collect_string_lit.rs:16-24 | the set grows by the strings of every declaration of the list |
| StringLits.Collector.Stmt | latte/src/static_analysis/collect_string_lit.rs:65-90 | the set grows by exactly the strings of the statement's expressions and nested statements |
| StringLits.Collector.Stmts | latte/src/static_analysis/collect_string_lit.rs:16-24 | the set grows by the strings of every statement of the list |
| StringLits.Collector.Func | latte/src/static_analysis/collect_string_lit.rs:59-63 | the set grows by the strings of the body |
| StringLits.Collector.Class | latte/src/static_analysis/collect_string_lit.rs:51-57 | the set grows by the strings of the method bodies only |
| StringLits.Collector.Def | latte/src/static_analysis/collect_string_lit.rs:42-49 | the set grows by the strings of the class or function |
| StringLits.Collector.Program | latte/src/static_analysis/collect_string_lit.rs:34-40 | the set grows by the strings of every definition |
| StringLits.CollectStringLit | latte/src/static_analysis/collect_string_lit.rs:6-10 | the result is exactly the set of the program's string constants |
| StringLits.DefsStringsAppend | latte/src/static_analysis/collect_string_lit.rs:34-40 | the strings of a program are the union of those of any split of its definitions |
| StringLits.OrderAndRepetitionIrrelevant | latte/src/static_analysis/collect_string_lit.rs:6-10 | neither the order of definitions nor a repeated definition changes the collected set |
| StringLits.FuncStringsCollected | latte/src/static_analysis/collect_string_lit.rs:34-49 | every literal of a function body is collected, wherever the function stands |
| StringLits.FieldsIgnored | latte/src/static_analysis/collect_string_lit.rs:51-57 | a class's fields never contribute |
| StringLits.MethodStringsCollected | latte/src/static_analysis/collect_string_lit.rs:51-57 | every literal in a method body of a class is collected |
| StringLits.UninitialisedString | latte/src/static_analysis/collect_string_lit.rs:97-99 | a string variable declared without initialiser brings in the empty string; other types bring nothing |
| Optimizer.CheckedI32 | latte/src/optimization/expr.rs:26-32 | the folded value when it fits in an `i32`; otherwise the overflow panic |
| Optimizer.TruncDivRem | latte/src/optimization/expr.rs:31-32 | Rust's `/` and `%` truncate: quotient and remainder recompose the dividend, the remainder is smaller than the divisor and has the dividend's sign |
| Optimizer.BoolLit | latte/src/optimization/expr.rs:98-103 | `to_lit` gives true exactly for `true` |
| Optimizer.ToBool | latte/src/optimization/expr.rs:113-119 | on a boolean literal, `to_bool` is the inverse of `to_lit` |
| Optimizer.OptExpr | latte/src/optimization/expr.rs:5-96 | `Expr::optimize`, with a panic as None, with no contract of its own; `Optimizer.OptimisationSound` states that it keeps an expression's value |
| Optimizer.OptExprs | latte/src/optimization/expr.rs:90-92 | the arguments are optimised one by one, and the whole fails exactly when one of them does |
| Optimizer.IntFoldSound | latte/src/optimization/expr.rs:25-40 | folding two int literals gives the value the operation has |
| Optimizer.BoolFoldSound | latte/src/optimization/expr.rs:41-49 | folding two boolean literals gives the value the operation has |
| Optimizer.BoolLeftSound | latte/src/optimization/expr.rs:50-78 | the rules for a boolean literal on the left keep every value the operation has |
| Optimizer.OptBinOpSound | latte/src/optimization/expr.rs:22-89 | one binary-operator rewrite keeps every value the operation has |
| Optimizer.EvalCongruence | latte/src/optimization/expr.rs:22-24 | operands with the same values give a binary operation the same value |
| Optimizer.NegSound | latte/src/optimization/expr.rs:8-14 | folding a negation keeps its value |
| Optimizer.NotSound | latte/src/optimization/expr.rs:15-21 | folding a boolean negation keeps its value |
| Optimizer.OptimisationSound | latte/src/optimization/expr.rs:5-96 | when the optimiser succeeds on an expression that has a value, the result has the same value |
| Optimizer.NoFoldByZero | latte/src/optimization/expr.rs:149-154 | division and modulo by the literal 0 are left for the program to perform |
| Optimizer.BoolOnTheLeft | latte/src/optimization/expr.rs:50-78 | a boolean literal on the left absorbs the right operand or passes it on, negated for `==false` and `!=true` |
| Optimizer.StringFolding | latte/src/optimization/expr.rs:79-85 | only `==` and `!=` fold two string literals; any other operator keeps them |
| Optimizer.BlockOf | latte/src/optimization/stmt.rs:27-40 | an empty list gives the empty statement, a single block is kept as it is, anything else is a block of the list |
| Optimizer.OptDecls | latte/src/optimization/stmt.rs:41-43 | the declarations optimised one by one, in order |
| Optimizer.SingleIsBlock | latte/src/optimization/stmt.rs:50-50 | a decided branch is the block optimiser applied to the one optimised statement |
| Optimizer.OptEach | latte/src/optimization/stmt.rs:9-11 | reference: every statement optimised on its own, or nothing if one panics |
| Optimizer.DropEmpty | latte/src/optimization/stmt.rs:12-15 | the non-empty statements of the list, in order |
| Optimizer.OptStmt | latte/src/optimization/stmt.rs:24-74 | `Stmt::optimize`, with a panic as None, with no contract of its own; `Optimizer.SingleIsBlock`, `Optimizer.OptStmtKeepsReturn` and `Optimizer.OptStmtStrings` state what it promises |
| Optimizer.OptStmts | latte/src/optimization/stmt.rs:6-21 | the optimised list is no longer than the original, holds no empty statement, and no statement in it but the last returns |
| Optimizer.OptStmtsShape | latte/src/optimization/stmt.rs:6-21 | the list optimiser keeps, in order, the non-empty optimised statements up to and including the first that returns |
| Optimizer.OptStmtsReturn | latte/src/optimization/stmt.rs:6-21 | the optimised list returns exactly when an optimised statement does, and only its last statement can return |
| Optimizer.OptStmtKeepsReturn | latte/src/optimization/stmt.rs:24-73 | a statement that returns on every path still does after optimisation |
| Optimizer.OptStmtsKeepReturn | latte/src/optimization/stmt.rs:6-21 | a list that returns still returns after optimisation |
| Optimizer.OptExprStrings | latte/src/optimization/expr.rs:5-96 | an optimised expression holds only string literals of the original |
| Optimizer.OptExprsStrings | latte/src/optimization/expr.rs:90-92 | optimised arguments hold only string literals of the originals |
| Optimizer.OptDeclsStrings | latte/src/optimization/stmt.rs:76-83 | optimised declarations hold only string literals of the originals |
| Optimizer.OptStmtStrings | latte/src/optimization/stmt.rs:24-73 | an optimised statement holds only string literals of the original |
| Optimizer.OptStmtsStrings | latte/src/optimization/stmt.rs:6-21 | an optimised list holds only string literals of the original |
| Optimizer.OptFunc | latte/src/optimization/func.rs:5-13 | only the body changes, and the function fails exactly when its body does |
| Optimizer.OptFuncs | latte/src/optimization/class.rs:11-11 | the methods optimised one by one, in order |
| Optimizer.OptClass | latte/src/optimization/class.rs:5-13 | every method optimised in order; name, superclass and fields kept |
| Optimizer.OptDef | latte/src/optimization/def.rs:5-12 | a function is optimised, a class is returned as it is |
| Optimizer.OptDefs | latte/src/optimization/mod.rs:11-13 | one definition out per definition in |
| Optimizer.OptDefsSpec | latte/src/optimization/mod.rs:11-13 | `run` succeeds exactly when every definition can be optimised, and optimises each on its own in order |
| Optimizer.ReturnCheckPreserved | latte/src/optimization/mod.rs:11-13 | a program that passed the return check still passes it after optimisation |
| Optimizer.ClassesUntouched | latte/src/optimization/def.rs:9-9 | classes come out untouched, method bodies included |
| Optimizer.NoNewStrings | latte/src/optimization/mod.rs:11-13 | optimisation never adds a string constant to the program |
| Optimizer.FoldingCanMakeAReturn | latte/src/optimization/stmt.rs:47-54 | a function the return check rejects may pass it once a constant `if (true)` is folded |
| Optimizer.OptimizeStmts | latte/src/optimization/stmt.rs:6-21 | the loop computes the list optimiser's specification |
| Optimizer.OptimizeStmt | latte/src/optimization/stmt.rs:24-73 | the method computes the statement optimiser's specification |
| Optimizer.OptimizeFunc | latte/src/optimization/func.rs:5-13 | the method computes the function optimiser's specification |
| Optimizer.OptimizeClass | latte/src/optimization/class.rs:5-13 | the method computes the class optimiser's specification |
| Optimizer.OptimizeDef | latte/src/optimization/def.rs:5-12 | the method computes the definition optimiser's specification |
| Optimizer.Run | latte/src/optimization/mod.rs:11-13 | `run` succeeds exactly when every definition can be optimised, giving the program of the optimised definitions |
| CGTypes.UserType | latte/src/code_generation/cg_type.rs:108-114 | a type has an LLVM user type exactly when it is not the null type |
| CGTypes.NativeType | latte/src/code_generation/cg_type.rs:116-122 | a type has an LLVM native type exactly when it is not the null type |
| CGTypes.UserTypes | latte/src/code_generation/cg_type.rs:108-114 | the LLVM types of a list of types, one per type in order; none when one of them is the null type |
| CGTypes.ArrayFlag | latte/src/code_generation/cg_type.rs:59-91 | only `arr_t` makes an array; `arr_elem_t` clears the flag, keeps the raw type and undoes `arr_t`; `as_raw` ignores the flag |
| CGTypes.GetIdSpec | latte/src/code_generation/cg_type.rs:82-99 | `get_id` answers (instead of panicking) exactly for object types, arrays of objects included, and `is_obj` agrees |
| CGTypes.From | latte/src/code_generation/cg_type.rs:101-106 | a converted type is an array exactly when the AST type is one, and is never an object or the null type |
| CGTypes.FromSpec | latte/src/code_generation/cg_type.rs:101-134 | `from` accepts exactly the four basic types and arrays of them, marks arrays, and never yields a null, pointer or object type |
| CGTypes.PointerTypes | latte/src/code_generation/cg_type.rs:136-158 | strings, objects and arrays are used through a pointer to their native type; every other type as it is; only null has no LLVM type |
| CGTypes.RawUserDecodes | latte/src/code_generation/cg_type.rs:140-158 | the text of a raw type reads back as that type and never opens with a brace |
| CGTypes.NotArrayText | latte/src/code_generation/cg_type.rs:108-114 | a type text not opening with a brace is not an array type |
| CGTypes.ArrayTextDecodes | latte/src/code_generation/cg_type.rs:108-114 | an array type text `{ i32, T* }*` reads back as the array of T |
| CGTypes.UserTypeDecodes | latte/src/code_generation/cg_type.rs:108-114 | the LLVM type text determines the type: reading it back gives the type |
| CGTypes.UserTypeInjective | latte/src/code_generation/cg_type.rs:108-114 | distinct types never print as the same LLVM type |
| ClassLayout.ClassData.constructor | latte/src/code_generation/class_data.rs:17-25 | a new class has its id and name, no superclass and no fields |
| ClassLayout.ClassData.SetSuper | latte/src/code_generation/class_data.rs:27-29 | the superclass is set; the fields are unchanged |
| ClassLayout.ClassData.AddField | latte/src/code_generation/class_data.rs:43-47 | the field gets the next index and its type is appended; a repeated name is rebound; other fields keep their types |
| ClassLayout.ClassData.GetFieldType | latte/src/code_generation/class_data.rs:49-51 | a field has a type exactly when it is known, and that type is one of the class's field types |
| ClassLayout.ClassData.FieldIdAsWritten | latte/src/code_generation/class_data.rs:53-59 | as written: an id exists exactly for a known field, and it is 0 exactly when the class has no superclass and the field is its first |
| ClassLayout.ClassData.GetFieldId | latte/src/code_generation/class_data.rs:53-59 | corrected: an id exists exactly for a known field, and it is never slot 0, which heads the struct |
| ClassLayout.Lookups | latte/src/code_generation/class_data.rs:31-63 | the lookups agree: a field is known to all of them or to none, and the superclass lookup answers exactly when one is set |
| ClassLayout.FieldIdAddressesField | latte/src/code_generation/class_data.rs:53-59 | the corrected id of every field addresses that field's own slot of the struct, with its type |
| ClassLayout.DistinctFieldsDistinctIds | latte/src/code_generation/class_data.rs:53-63 | distinct fields never share an id |
| ClassLayout.SubclassIdsAgree | latte/src/code_generation/class_data.rs:53-59 | for a subclass the id as written is the corrected one |
| ClassLayout.RootFirstFieldHitsVtable | latte/src/code_generation/class_data.rs:53-59 | as written, the first field of a root class gets slot 0, which holds the vtable pointer |
| CodegenUtils.Utf8Char | latte/src/code_generation/utils.rs:1-3 | one to four bytes per character, one exactly for ASCII |
| CodegenUtils.AsciiBytes | latte/src/code_generation/utils.rs:1-3 | for ASCII text, one byte per character, equal to its code |
| CodegenUtils.HexDigitValue | latte/src/code_generation/utils.rs:5-7 | each hex digit reads back as its value |
| CodegenUtils.CharToHex | latte/src/code_generation/utils.rs:5-7 | a backslash and the byte in uppercase hex without padding: two characters below 16, three from 16 |
| CodegenUtils.CharToHexPadded | latte/src/code_generation/utils.rs:5-7 | the corrected escape is always a backslash and two digits |
| CodegenUtils.StringToHexAppend | latte/src/code_generation/utils.rs:1-3 | the escaping distributes over concatenation; the empty input gives the empty text |
| CodegenUtils.StringToHexLength | latte/src/code_generation/utils.rs:1-3 | two or three characters per byte |
| CodegenUtils.CharToHexDigits | latte/src/code_generation/utils.rs:5-7 | the digits after the backslash spell the byte's value |
| CodegenUtils.Utf8Append | latte/src/code_generation/utils.rs:1-3 | the bytes of a concatenation are the bytes of its parts |
| CodegenUtils.NewlineEscapeMisread | latte/src/code_generation/utils.rs:5-7 | as written, a newline becomes `\A`, which LLVM reads as the two bytes `\` and `A` instead of the one byte 10 |
| CodegenUtils.PaddedText | latte/src/code_generation/utils.rs:1-3 | the corrected escape text is ASCII: its bytes are a backslash and two hex digits per byte |
| CodegenUtils.PaddedChunk | latte/src/code_generation/utils.rs:5-7 | LLVM's lexer reads a padded chunk as its byte and goes on where it ends |
| CodegenUtils.PaddedUnescape | latte/src/code_generation/utils.rs:1-3 | with padding, LLVM's lexer reads the escaped bytes back and then what follows |
| CodegenUtils.PaddedThenNul | latte/src/code_generation/utils.rs:1-3 | padded escapes followed by `\00` read back as the bytes and a zero |
| CodegenUtils.PaddedRoundTrip | latte/src/code_generation/utils.rs:1-3 | with padding, the text is three characters per byte and LLVM's lexer reads its UTF-8 bytes back as exactly the original bytes |
| CodegenUtils.JoinSnoc | latte/src/code_generation/vtable.rs:40-42 | joining one more item appends a separator and the item (the definition of `join` is assumed; see Left out) |
| CodegenUtils.JoinLength | latte/src/code_generation/vtable.rs:40-42 | a join's length is the items' lengths plus one separator between each two (the definition of `join` is assumed; see Left out) |
| Vtables.EntriesText | latte/src/code_generation/vtable.rs:61-65 | the `i8*` text of each entry in slot order; none when an entry has no pointer type |
| Vtables.AsPtrDefined | latte/src/code_generation/vtable.rs:61-70 | an entry has a pointer type exactly when neither its result nor an argument is the null type |
| Vtables.VTable.constructor | latte/src/code_generation/vtable.rs:15-20 | a new table has no entries and no names |
| Vtables.VTable.SetFunc | latte/src/code_generation/vtable.rs:22-34 | a new name gets the next slot; a known name keeps its slot and only its entry changes; every other name's entry is unchanged |
| Vtables.SetFuncs | latte/src/code_generation/vtable.rs:22-34 | setting a subclass's methods in order keeps every inherited slot, gives every method a slot, and changes no other name's entry |
| Vtables.EntriesTextSnoc | latte/src/code_generation/vtable.rs:40-42 | one more entry adds its own text at the end |
| Vtables.AppendExtendsText | latte/src/code_generation/vtable.rs:40-42 | a new slot's entry is appended to the array text after a comma |
| CodeGen.InternalFunctionsDeclarable | latte/src/code_generation/code_generator.rs:38-47 | each of the six internal functions has an LLVM declaration (no null type among them) |
| CodeGen.DeclareLinesSnoc | latte/src/code_generation/code_generator.rs:31-33 | the declaration loop emits one `declare` line per internal function, in order |
| CodeGen.ReleaseCallText | latte/src/code_generation/code_generator.rs:284-288 | releasing a string is the void call of `@._release_str` on it |
| CodeGen.CodeGenerator.constructor | latte/src/code_generation/code_generator.rs:18-36 | the counters at zero, current label -1, and the ten-line prelude emitted |
| CodeGen.CodeGenerator.AddLine | latte/src/code_generation/code_generator.rs:416-418 | exactly one tab-indented line is appended; counters and label unchanged |
| CodeGen.CodeGenerator.AddLineNoIndent | latte/src/code_generation/code_generator.rs:420-422 | exactly the line is appended; counters and label unchanged |
| CodeGen.CodeGenerator.AddComment | latte/src/code_generation/code_generator.rs:412-414 | one `; ` comment line is appended; counters and label unchanged |
| CodeGen.CodeGenerator.AddEmptyLine | latte/src/code_generation/code_generator.rs:424-426 | one empty line is appended; counters and label unchanged |
| CodeGen.CodeGenerator.AddFuncDeclare | latte/src/code_generation/code_generator.rs:186-189 | one `declare <ret> @<name>(<args>)` line is appended; counters unchanged |
| CodeGen.CodeGenerator.Reset | latte/src/code_generation/code_generator.rs:49-52 | register and label counters return to 0; the buffer, string-constant counter and current label are unchanged |
| CodeGen.CodeGenerator.NextReg | latte/src/code_generation/code_generator.rs:371-374 | the register counter goes up by one and its new value is returned, so it is positive, new since the last reset, and never the dummy register |
| CodeGen.CodeGenerator.NewReg | latte/src/code_generation/code_generator.rs:365-369 | one tab-indented `%r_N = rhs` line for the next register N, which is returned |
| CodeGen.CodeGenerator.NextLabel | latte/src/code_generation/code_generator.rs:393-396 | the label counter goes up by one and its new value is returned; the buffer is unchanged |
| CodeGen.CodeGenerator.AddLabel | latte/src/code_generation/code_generator.rs:398-401 | one unindented `label_N:` line, and N becomes the current label |
| CodeGen.CodeGenerator.AddCall | latte/src/code_generation/code_generator.rs:231-244 | a void call is one plain line and yields the dummy register with no register used; any other call assigns the next register; a null type in the call is the panic |
| CodeGen.CodeGenerator.AddOp | latte/src/code_generation/code_generator.rs:66-81 | `<instr> <type> <lhs>, <rhs>` into the next register; `!=`, `&&` and `\|\|` are the unreachable panic and emit nothing |
| CodeGen.CodeGenerator.ReleaseString | latte/src/code_generation/code_generator.rs:284-288 | one void call line releasing the value; no register used |
| CodeGen.CodeGenerator.AddLoad | latte/src/code_generation/code_generator.rs:348-354 | one `load` line into the next register, which is returned |
| CodeGen.CodeGenerator.AddStringConstant | latte/src/code_generation/code_generator.rs:247-256 | the string-constant counter goes up by one and one line declares the constant of length `len+1`, its body the unpadded escapes of `string_to_hex` and `\00`; registers unchanged |
| CodeGen.OpInstrSpec | latte/src/code_generation/code_generator.rs:66-79 | exactly `!=`, `&&` and `\|\|` have no instruction, and distinct operators get distinct instructions |
| CodeGen.RegisterNamesDistinct | latte/src/code_generation/code_generator.rs:458-462 | distinct registers print differently, so no real register reads as the dummy one |
| CodeGen.LabelNamesDistinct | latte/src/code_generation/code_generator.rs:476-480 | distinct labels print differently |
| CodeGen.StringConstantHoldsString | latte/src/code_generation/code_generator.rs:247-256 | with the corrected two-digit escapes (`FixedStringConstantBody`) the constant holds exactly the string's bytes and a zero byte, as many as the declared length |
| CodeGen.NewlineConstantMisread | latte/src/code_generation/code_generator.rs:249-253 | as written, the constant declared for `"\n"` has the body `\A\00`, which LLVM reads as three bytes (`\`, `A`, 0) against the declared `[2 x i8]`, while the corrected body reads back as the two bytes 10 and 0 |
| CodeGen.PreludeShape | latte/src/code_generation/code_generator.rs:18-36 | a new buffer has ten lines: the string type, a blank, the comment, six declarations, a blank |
| CodegenContext.ReleaseTmpsLines | latte/src/code_generation/context.rs:101-105 | one release line per temporary |
| CodegenContext.VarSteps | latte/src/code_generation/context.rs:107-113 | two steps per variable: a load and a release |
| CodegenContext.ReleaseVarsLines | latte/src/code_generation/context.rs:107-113 | two lines per string variable |
| CodegenContext.Context.constructor | latte/src/code_generation/context.rs:22-35 | nothing bound or tracked, the given return types, and a fresh generator holding the prelude |
| CodegenContext.Context.SetStrConst | latte/src/code_generation/context.rs:66-68 | the string is mapped to the constant; the scope state is unchanged |
| CodegenContext.Context.SetVar | latte/src/code_generation/context.rs:74-80 | the name is bound to the address and type; a string variable is also tracked in both lists |
| CodegenContext.Context.AddStringTmp | latte/src/code_generation/context.rs:82-85 | the value is tracked in both lists of temporaries |
| CodegenContext.Context.ReleaseStringTmps | latte/src/code_generation/context.rs:101-105 | one release line per temporary, in order; no register used |
| CodegenContext.Context.ReleaseStringVars | latte/src/code_generation/context.rs:107-113 | per variable a load into a fresh register and its release, in order; one register per variable |
| CodegenContext.Context.ReleaseLocalStrings | latte/src/code_generation/context.rs:87-92 | releases the local temporaries and then the local string variables |
| CodegenContext.Context.ReleaseAllStrings | latte/src/code_generation/context.rs:94-99 | releases every tracked temporary and then every tracked string variable |
| CodegenContext.Context.Do | latte/src/code_generation/context.rs:74-99 | one operation of a closure changes the state as its action says, appends exactly the code `Effect` gives for it and leaves the register counter where `Effect` says |
| CodegenContext.Context.Run | latte/src/code_generation/context.rs:48-48 | a closure's operations in order: the state, the appended code and the register counter are those of `EffectAll` |
| CodegenContext.Context.InNewScope | latte/src/code_generation/context.rs:37-56 | the appended code is that of the closure run from the saved state with both local lists cleared; afterwards the variables and all four lists are as before |
| CodegenContext.Effect | latte/src/code_generation/context.rs:37-99 | one operation's code and register use; its state is `Apply`'s, and a nested scope runs its body with cleared local lists and restores the state |
| CodegenContext.EffectAll | latte/src/code_generation/context.rs:48-48 | a closure's code in order; its state is `ApplyAll`'s and no register is given back |
| CodegenContext.LocalsAdded | latte/src/code_generation/context.rs:74-85 | a closure's own temporaries and string variables are appended, in order, to the local lists it starts with |
| CodegenContext.ScopeReleasesOwnStrings | latte/src/code_generation/context.rs:37-56 | `release_local_strings` at the end of a nested scope releases exactly what that scope's body registered, none of the enclosing scope's strings, and the enclosing state comes back |
| CodegenContext.ReleaseVarsRegisters | latte/src/code_generation/context.rs:107-113 | the k-th variable is loaded into register last+k+1, which is then released |
| CodegenContext.ReleaseVarsText | latte/src/code_generation/context.rs:107-113 | hence each variable's load line and then the release of that register |
| CodegenContext.SetVarTracksStrings | latte/src/code_generation/context.rs:74-80 | a string variable is tracked in both lists; any other is only bound; temporaries unchanged |
| CodegenContext.ListsOnlyGrow | latte/src/code_generation/context.rs:74-85 | operations only add to the tracked lists and bindings; nothing is dropped before the scope ends |
| Decimal.DigitChar | latte/src/code_generation/code_generator.rs:451-452 | a digit below ten prints as its character |
| Decimal.NatToString | latte/src/code_generation/code_generator.rs:451-452 | a non-empty string of digits without a leading zero |
| Decimal.NatToStringValue | latte/src/code_generation/code_generator.rs:451-452 | reading the digits back gives the number |
| Decimal.NatToStringInjective | latte/src/code_generation/code_generator.rs:458-462 | distinct numbers print differently |
| Decimal.IntToString | instant/src/ast.rs:49-49 | a signed integer prints as its digits, with a minus sign when negative |
| Decimal.IntToStringInjective | instant/src/ast.rs:49-49 | distinct integers print differently |
| InstantAst.StmtsTextAppend | instant/src/ast.rs:27-35 | a program prints as the concatenation of its statements, each followed by `;` and a newline, so the text of a joined list is the joined texts |
| InstantAst.AssignedSpec | instant/src/jvm.rs:138-149 | the set of assigned names holds a name exactly when some statement assigns it |
| InstantAst.AssignedAppend | instant/src/jvm.rs:138-149 | the names assigned by two statement lists in a row are the union of each list's names |
| InstantParser.RunLengthSpec | instant/src/parser.rs:122-131 | the scan stops at the first character that is not a letter, digit or underscore, and every character before it is one |
| InstantParser.RunLengthIsFirstStop | instant/src/parser.rs:122-131 | any position whose prefix is all identifier characters and whose character is not one is where the scan stops |
| InstantParser.Identifier | instant/src/parser.rs:114-134 | the loop computes the scanner's result: an error on empty input or on a first character that is a digit or not an identifier character, reported at the whole input; otherwise a non-empty valid identifier followed by a rest that cannot continue it, the two together making up the input |
| InstantParser.ScanValidIdent | instant/src/parser.rs:114-134 | a valid identifier followed by a character that cannot continue it is read as exactly that identifier, leaving the rest |
| InstantParser.WholeInput | instant/src/parser.rs:114-134 | the scanner consumes a whole input exactly when the input is a valid identifier |
| InstantReader.DigitRunDigits | instant/src/ast.rs:49-49 | the digit run of a text is made of digits only |
| InstantReader.ReadNat | instant/src/ast.rs:49-49 | the reference reader of a printed number consumes at least one character |
| InstantReader.ReadExpr | instant/src/ast.rs:46-54 | the reference reader of a printed expression consumes at least one character |
| InstantReader.ReadStmt | instant/src/ast.rs:37-44 | the reference reader of a printed statement consumes at least one character |
| InstantReader.ReadNatText | instant/src/ast.rs:49-49 | a number printed in decimal, followed by a non-digit, reads back as that number and leaves the rest |
| InstantReader.ReadConst | instant/src/ast.rs:49-49 | a printed non-negative constant reads back as itself |
| InstantReader.ReadNegative | instant/src/ast.rs:49-49 | a printed negative constant, its minus sign included, reads back as itself |
| InstantReader.BinOpText | instant/src/ast.rs:51-51 | an operation prints as `(`, the left operand, a space, the operator, a space, the right operand and `)` |
| InstantReader.ReadBinOp | instant/src/ast.rs:51-51 | a printed operation reads back as itself when both of its operands do |
| InstantReader.ExprRoundTrip | instant/src/ast.rs:46-66 | every well-formed expression, printed and followed by a boundary, reads back as itself |
| InstantReader.NotAssignment | instant/src/ast.rs:40-41 | a printed expression never starts with a name followed by ` = `, so an expression statement cannot be mistaken for an assignment |
| InstantReader.StmtRoundTrip | instant/src/ast.rs:37-44 | every well-formed statement, printed and followed by `;`, reads back as itself |
| InstantReader.StmtsRoundTrip | instant/src/ast.rs:27-35 | a printed list of well-formed statements reads back as the same list |
| InstantReader.ProgramRoundTrip | instant/src/ast.rs:27-66 | printing a program loses nothing: the printed text reads back as the program |
| InstantReader.PrintInjective | instant/src/ast.rs:27-66 | two well-formed programs that print the same text are equal |
| InstantSemantics.EvalNeedsNames | instant/src/jvm.rs:242-250 | an expression has a value only when every name it reads is bound, as loading an unknown name panics |
| Jasmin.Commutes | src/jvm.rs:35-43 | wrapped `+` and `*` give the same result with their operands exchanged, which is what makes exchanging them sound |
| Jasmin.ExecAppend | instant/src/jvm.rs:105-112 | running two pieces of code written one after the other is running the first and then the second from where it left off |
| Jasmin.ExecOp | instant/src/jvm.rs:219-229 | an arithmetic instruction replaces the two ints on top of the stack with the result of the operator, or faults on division by zero |
| Jasmin.ExecSwapOp | instant/src/jvm.rs:209-211 | `swap` before an operator makes the operator see its operands in the other order |
| Jasmin.StepDepth | instant/src/jvm.rs:155-173 | the static stack-depth change of an instruction is the change the machine makes when it runs |
| Jasmin.ExecDepth | instant/src/jvm.rs:155-173 | the stack after a run of code is deeper than before by exactly the code's net depth |
| Jasmin.PeakAppend | instant/src/jvm.rs:155-173 | the greatest depth of two pieces in a row is the larger of the first's and the first's net change plus the second's |
| Jasmin.PeakBoundsPrefix | instant/src/jvm.rs:133-133 | the greatest depth bounds the depth after every prefix of the code |
| Jasmin.TextsAppend | instant/src/jvm.rs:105-112 | the text of two pieces of code is the text of the first followed by that of the second |
| InstantJvm.PrepareExpr | instant/src/jvm.rs:40-51 | the prepared tree stands for the source expression and has no operands exchanged |
| InstantJvm.PrepareStmt | instant/src/jvm.rs:33-38 | the prepared statement stands for the source statement, its expression with no operands exchanged |
| InstantJvm.PrepareAst | instant/src/jvm.rs:24-31 | one prepared statement per source statement, in order, each standing for its source |
| InstantJvm.StackSize | instant/src/jvm.rs:155-173 | every expression needs at least one stack slot |
| InstantJvm.OptimizeStackSize | instant/src/jvm.rs:64-78 | the returned size is the stack size of the rewritten tree and is no more than that of the input; every operation has its deeper operand first; and from an unswapped tree the rewritten tree stands for the same expression, with every exchange marked and justified |
| InstantJvm.Optimize | instant/src/jvm.rs:53-61 | every statement, assignments included, is replaced in place by its optimised form and nothing else changes |
| InstantJvm.PipelineKeepsSource | instant/src/jvm.rs:24-61 | preparing and optimising a program leaves statements that stand for the source program, in order |
| InstantJvm.ExecOpCode | instant/src/jvm.rs:201-217 | an operator after its operands computes the operator on the operands in source order, the `swap` undoing an exchange of `-` or `/` |
| InstantJvm.EvalBinOp | instant/src/jvm.rs:201-217 | an operation whose operands were exchanged still has the value of the source operation |
| InstantJvm.ExprCorrect | instant/src/jvm.rs:201-217 | an expression's code pushes the value of the source expression and changes nothing else, and faults exactly when the value does not exist |
| InstantJvm.ExecPrint | instant/src/jvm.rs:189-196 | `getstatic`, `swap` and `println` take the int off the stack and print it |
| InstantJvm.PushInt | instant/src/jvm.rs:231-240 | the push chosen for a constant is an instruction the JVM has; it is `iconst` exactly for 0 to 5 and `bipush` exactly for 6 to 127 |
| InstantJvm.PushIntSpec | instant/src/jvm.rs:231-240 | a constant is pushed by an instruction the JVM has and that pushes exactly it: `iconst` for 0 to 5, `bipush` for 6 to 127, `ldc` otherwise |
| InstantJvm.SlotInstrSpec | instant/src/jvm.rs:242-260 | a load or store exists exactly for a known name, is one the JVM has, and takes the short form exactly for slots up to 3 |
| InstantJvm.WithVarSlots | instant/src/jvm.rs:93-98 | a name keeps its slot, a new name gets a fresh slot, and slots stay one per name |
| InstantJvm.ExecStoreInstr | instant/src/jvm.rs:252-260 | a store moves the int on top of the stack into the name's slot |
| InstantJvm.AgreeStore | instant/src/jvm.rs:184-187 | after an assignment the locals hold the value of every bound name |
| InstantJvm.AssignCorrect | instant/src/jvm.rs:184-187 | an assignment's code stores the value in the name's slot, leaves the stack and the output as they were, and faults exactly when the assignment does |
| InstantJvm.PrintCorrect | instant/src/jvm.rs:189-196 | an expression statement's code prints its value and leaves the stack and the locals as they were, faulting exactly when the statement does |
| InstantJvm.StmtCorrect | instant/src/jvm.rs:181-199 | a statement's code simulates the statement and keeps slots one per name |
| InstantJvm.SimulatesThen | instant/src/jvm.rs:105-112 | simulation composes over a statement followed by the rest |
| InstantJvm.StmtsCorrect | instant/src/jvm.rs:105-112 | the code of a statement list simulates the list |
| InstantJvm.ProgramCorrect | instant/src/jvm.rs:105-112 | the compiled `main` prints exactly what the Instant program prints, and faults exactly when the program divides by zero |
| InstantJvm.ExprCodeDefined | instant/src/jvm.rs:242-250 | an expression compiles without a panic exactly when every name it reads has a slot |
| InstantJvm.StmtCodeKeys | instant/src/jvm.rs:181-199 | a statement's code gives slots to the names there were and to the name it assigns |
| InstantJvm.StmtsCodeCons | instant/src/jvm.rs:105-112 | a list compiles when its first statement does and the rest does from the slots it leaves |
| InstantJvm.StmtsCodeDefined | instant/src/jvm.rs:181-199 | a list compiles without a panic exactly when every name is assigned before it is read |
| InstantJvm.NoPanic | instant/src/jvm.rs:105-112 | the whole pipeline panics exactly when the source reads a name before assigning it |
| InstantJvm.MaxStackSize | instant/src/jvm.rs:116-116 | the result bounds every statement's stack size, is one of them when there is any, and is 0 for none |
| InstantJvm.JAssignedAppend | instant/src/jvm.rs:138-149 | the names assigned by two lists in a row are the union of each list's names |
| InstantJvm.VariableCount | instant/src/jvm.rs:138-149 | the loop counts the distinct assigned names |
| InstantJvm.ExprDepth | instant/src/jvm.rs:155-173 | an expression's code reaches exactly its computed stack size and leaves one value |
| InstantJvm.BinOpDepth | instant/src/jvm.rs:155-173 | the right operand of an operation is computed one slot higher than the left |
| InstantJvm.OpCodeDepth | instant/src/jvm.rs:219-229 | an operator, with or without a `swap`, needs no new slot and takes one value off |
| InstantJvm.PrintDepth | instant/src/jvm.rs:189-196 | printing needs one more slot and takes one value off |
| InstantJvm.StmtDepth | instant/src/jvm.rs:116-116 | a statement needs its expression's stack and two slots to print, and leaves the stack as it was |
| InstantJvm.TailDepth | instant/src/jvm.rs:184-196 | a store takes one value off and needs no new slot; printing takes one off and needs one new slot |
| InstantJvm.StmtsDepth | instant/src/jvm.rs:116-116 | a list's code stays within the stack limit and leaves the stack as it was |
| InstantJvm.StackWithinLimit | instant/src/jvm.rs:133-133 | the operand stack never grows past `.limit stack` at any point of `main` |
| InstantJvm.ExprSlots | instant/src/jvm.rs:242-250 | an expression's code touches only the slots of its names |
| InstantJvm.AssignSlots | instant/src/jvm.rs:184-187 | after an assignment the slots are still one per name and the code touches only those |
| InstantJvm.StmtSlots | instant/src/jvm.rs:181-199 | a statement's code touches only slots of the names known after it |
| InstantJvm.SlotsThen | instant/src/jvm.rs:105-112 | slot bounds compose over a statement followed by the rest |
| InstantJvm.StmtsSlots | instant/src/jvm.rs:105-112 | after a list the names with slots are the ones there were plus those assigned, and the code touches only their slots |
| InstantJvm.LocalsWithinLimit | instant/src/jvm.rs:118-118 | every slot the code touches is below `.limit locals`, one per assigned name plus `main`'s argument |
| InstantJvm.JvmContext.constructor | instant/src/jvm.rs:86-91 | a new context has no variables and has written nothing |
| InstantJvm.JvmContext.Write | instant/src/jvm.rs:114-136 | the lines are appended to the output and the variables are unchanged |
| InstantJvm.JvmContext.Emit | instant/src/jvm.rs:201-229 | one instruction's text is appended and the variables are unchanged |
| InstantJvm.JvmContext.AddVar | instant/src/jvm.rs:93-98 | a new name gets slot one more than the number of names; a known name keeps its slot; nothing is written |
| InstantJvm.JvmContext.LoadVar | instant/src/jvm.rs:242-250 | for a known name the load (short form up to slot 3) is written; an unknown name is the panic, reported as false |
| InstantJvm.JvmContext.StoreVar | instant/src/jvm.rs:252-260 | for a known name the store (short form up to slot 3) is written; an unknown name is the panic, reported as false |
| InstantJvm.JvmContext.CompileExpr | instant/src/jvm.rs:201-217 | the text of the expression's code is written, or the panic of an unknown name is reported |
| InstantJvm.JvmContext.CompileOp | instant/src/jvm.rs:209-229 | the operator's instruction is written, after a `swap` when the operands of `-` or `/` were exchanged |
| InstantJvm.JvmContext.CompileStmt | instant/src/jvm.rs:181-199 | the statement's code is written and an assigned name gets its slot, or the panic is reported |
| InstantJvm.JvmContext.CompileStmts | instant/src/jvm.rs:105-112 | the statements' code is written in order and the slots are those after the list, or the panic is reported |
| InstantJvm.Compile | instant/src/jvm.rs:105-136 | the text written is the program's Jasmin file: the prelude with both limits, every statement's code, then the end of `main`; none when a name is read before it is assigned |
| RootJvm.StackSizeExpr | src/jvm.rs:187-195 | every expression needs at least one stack slot |
| RootJvm.OptimizeStackSize | src/jvm.rs:27-46 | the returned size is the stack size of the rewritten tree and no more than that of the input; the rewrite only exchanges operands of `+` and `*`; and every `+` and `*` has its deeper operand first |
| RootJvm.SwapOnlyEval | src/jvm.rs:35-43 | exchanging the operands of `+` and `*` changes no value |
| RootJvm.Optimize | src/jvm.rs:14-24 | every expression statement is replaced in place by its optimised form; assignments are left as they are |
| RootJvm.OptimizeStmtKeepsRun | src/jvm.rs:14-24 | optimising a statement keeps what it does |
| RootJvm.OptimizeAllKeepsRun | src/jvm.rs:14-24 | optimising a program keeps what it prints and whether it faults |
| RootJvm.ExprCorrect | src/jvm.rs:87-98 | an expression's code pushes the value of the expression and changes nothing else, or faults exactly when the value does not exist |
| RootJvm.PushInt | src/jvm.rs:100-105 | the push chosen for a constant is an instruction the JVM has; it is `iconst` exactly for 0 to 5 and never `bipush` |
| RootJvm.PushIntSpec | src/jvm.rs:100-105 | a constant is pushed by an instruction the JVM has and that pushes exactly it: `iconst` for 0 to 5, `ldc` otherwise, never `bipush` |
| RootJvm.SlotInstrSpec | src/jvm.rs:107-123 | a load or store exists exactly for a known name, is one the JVM has, and takes the short form exactly for slots up to 3 |
| RootJvm.WithVarSlots | src/jvm.rs:80-83 | a new name gets slot `vars.len()`, a known name keeps its slot, and slots stay one per name |
| RootJvm.AgreeStore | src/jvm.rs:79-84 | after an assignment the locals hold the value of every bound name |
| RootJvm.ExecPopVal | src/jvm.rs:116-123 | a store moves the int on top of the stack into the name's slot |
| RootJvm.AssignCorrect | src/jvm.rs:74-85 | an assignment's code simulates the assignment |
| RootJvm.PrintCorrect | src/jvm.rs:63-70 | an expression statement's code simulates the statement: it prints the value |
| RootJvm.StmtCorrect | src/jvm.rs:60-72 | a statement's code simulates the statement and keeps slots one per name |
| RootJvm.StmtsCorrect | src/jvm.rs:48-58 | the code of a statement list simulates the list |
| RootJvm.ProgramCorrect | src/jvm.rs:48-58 | although the first variable shares slot 0 with `main`'s argument array, the optimised and compiled program prints exactly what the Instant program prints, and faults exactly when it does |
| RootJvm.ArgsSlotOverwritten | src/jvm.rs:80-82 | after `x = 1;` slot 0 holds 1, no longer the argument array |
| RootJvm.SwapOnlyReads | src/jvm.rs:35-43 | exchanging operands keeps the names read |
| RootJvm.OptimizeAllDefined | src/jvm.rs:14-24 | optimising keeps whether every name is assigned before it is read |
| RootJvm.ExprCodeDefined | src/jvm.rs:107-114 | an expression compiles without a panic exactly when every name it reads has a slot |
| RootJvm.StmtCodeKeys | src/jvm.rs:60-85 | a statement's code gives slots to the names there were and to the name it assigns |
| RootJvm.StmtsCodeCons | src/jvm.rs:53-55 | a list compiles when its first statement does and the rest does from the slots it leaves |
| RootJvm.StmtsCodeDefined | src/jvm.rs:60-85 | a list compiles without a panic exactly when every name is assigned before it is read |
| RootJvm.NoPanic | src/jvm.rs:48-58 | the optimised program compiles without a panic exactly when it reads no name before assigning it |
| RootJvm.MaxStackSize | src/jvm.rs:136-140 | the result bounds every statement's stack size, is one of them when there is any, and is 0 for none |
| RootJvm.ExprDepth | src/jvm.rs:187-195 | an expression's code reaches exactly its computed stack size and leaves one value |
| RootJvm.StmtDepth | src/jvm.rs:180-185 | a statement needs its expression's stack and two slots to print, and leaves the stack as it was |
| RootJvm.StmtsDepth | src/jvm.rs:136-140 | a list's code stays within the stack limit and leaves the stack as it was |
| RootJvm.StackWithinLimit | src/jvm.rs:156-156 | the operand stack never grows past `.limit stack` |
| RootJvm.ExprSlots | src/jvm.rs:107-114 | an expression's code touches only the slots of its names |
| RootJvm.AssignSlots | src/jvm.rs:74-85 | after an assignment the slots are still one per name and the code touches only those |
| RootJvm.StmtSlots | src/jvm.rs:60-85 | a statement's code touches only slots of the names known after it |
| RootJvm.StmtsSlots | src/jvm.rs:48-58 | after a list the names with slots are the ones there were plus those assigned, and the code touches only their slots |
| RootJvm.LocalsWithinLimit | src/jvm.rs:141-157 | every slot the code touches is below `.limit locals`, the number of names plus one |
| RootJvm.VariableCount | src/jvm.rs:167-178 | the loop counts the distinct assigned names |
| RootJvm.CompileStmt | src/jvm.rs:60-85 | the statement's text and the slots afterwards, or the panic of an unknown name |
| RootJvm.Compile | src/jvm.rs:48-58 | the text written is the Jasmin file: the prelude with both limits, every statement's code with the slots so far, then the end of `main`; none on a panic |
| InstantCheck.CheckExprSpec | instant/src/helpers.rs:34-52 | the check passes exactly when every name read is known, and otherwise reports the leftmost unknown one |
| InstantCheck.CheckVars | instant/src/helpers.rs:8-20 | the loop over the statements gives the check's result from no known names |
| InstantCheck.CheckStmtsSpec | instant/src/helpers.rs:13-32 | the check as written passes exactly when every name read is known or assigned by the statement reading it |
| InstantCheck.DefinedBeforeUseIsStricter | instant/src/helpers.rs:25-28 | every program that assigns each name before reading it passes the check as written |
| InstantCheck.CheckStmtsFixedSpec | instant/src/helpers.rs:22-32 | the corrected check passes exactly the programs that assign every name before reading it |
| InstantCheck.FixedCheckMatchesBackends | instant/src/helpers.rs:22-32 | the corrected check passes exactly the programs that both backends compile without a panic |
| InstantCheck.SelfReadPasses | instant/src/helpers.rs:25-28 | the check as written passes `x = x;`, which has no value and makes both backends panic |

## Left out

- `latte/lib/runtime.c`: console input and output. This is the runtime of compiled programs, not part of the compiler.
- The Rust readers of the C tree (`latte/src/parser/{mod,many,expr,stmt,def,field_get,common,to_ast}.rs`):
  - they are unsafe pointer casts over C memory;
  - they rely on a generated grammar that is not part of this model.
- The C grammar and its headers, which hold declarations only. `ParserC` follows the `.c` files where the two disagree (`EXPR_TYPE_NEW_ARR`, `expr_new_array_create`).
- The C destructors' `abort()` on an unknown tag. A tree with an unknown tag is not well formed in the model, so the destructors' contracts exclude it.
- LLVM itself is not part of this model. `CodegenUtils.LlvmUnescape` states how its lexer reads the bytes of a `c"..."` body (`UnEscapeLexedString`): `\\` is a backslash, a backslash and two hex digits are one byte, and any other byte stands for itself.
- The LLVM emitters (`latte/src/code_generation/{expr,stmt,field_get,class,func,mod,generate}.rs`). They call `Context` methods that `latte/src/code_generation/context.rs` does not define, and they write a file.
- `CodeGen.CodeGenerator`: the remaining text emitters are used only by those emitters:
  - `add_phi`, `add_int_op`, `add_neg`, `add_not`, `concatenate_str`, `add_loop_step`;
  - the class, subclass and vtable declares, `store_vtable`, `load_vtable_entry`, `bitcast_object`, `get_field_addr`;
  - `add_func_begin`, `add_func_end`, `add_str_load`, `alloc_string`, `retain_string`;
  - `new_arr`, `new_object`, `malloc`, `sizeof`, `get_nth_arr_elem`;
  - `add_alloca`, `add_store`, `ret`, `cond_jump`, `jump`, `get_current_label`.
- The getters of `Context`: `get_ret_type`, `get_str_const`, `get_var`.
  - They are lookups, modelled as functions returning `Option`.
  - Their `unwrap` panic on a missing key is that `None`.
- `CodegenContext.Context.InNewScope`: the closure it runs is modelled as a list of context operations (`Action`), run by `Do` and `Run`. The code those operations emit is given exactly by `Effect`. Code a real closure writes through `cg` by other means is not modelled.
- The Latte optimiser's integer semantics: a Rust panic (debug-mode `i32` overflow, `i32::MIN / -1`, the `unreachable!()` arms) is a `None` result. No precondition excludes it, and release-mode wrap-around is not modelled.
- Tree rewrites that Rust does in place (`Expr::optimize` consuming its input, the backends' `optimize_stack_size`) are functions returning the new tree. The exception is the loop over a program's statements, which keeps its array.
- `ClassHierarchy`: the order in which a `HashMap` is iterated is a parameter, and every property holds for every order.
- `TypeCheck`: superclass chains are followed for at most as many links as there are classes. The source follows them without bound. The two agree on the acyclic hierarchies that `class_hierarchy_check` lets through.
- `latte/src/static_analysis/type_context.rs` defines no class lookups (`get_field_type`, `is_subclass_of`, `in_class_scope`, `class_exists`), although `type_check.rs` calls them. `TypeCheck` defines them over the table of classes.
- `latte/src/ast_print.rs`, the diagnostic formatting in `latte/src/static_analysis/{type_error,return_error,result,mod}.rs`, and the module and trait declarations. The errors are values of `TypeErrors` and of each pass's result type.
- `instant/src/llvm.rs`, the three `main.rs` files (command line, files, external tools) and `instant/test_gen.py`.
- The `nom` grammar rules of `instant/src/parser.rs` and `src/parser.rs`, apart from `_identifier`. They are macros of a library that is not part of this model.
  - `InstantReader` is a reference reader used to state what the printer keeps. It is not those rules.
  - Identifiers are scanned as characters, not bytes.
- The JVM backends write to an `io::Write`.
  - Here they return the lines of the Jasmin file, without their newlines.
  - An I/O error is not modelled.
  - The class name of `instant/src/jvm.rs` is a parameter.
- `Jasmin`: the JVM is modelled only as far as these instructions go.
  - Verification of a class by the JVM is reduced to the depth of the operand stack (`Peak`) and the slots touched.
  - Instant's `Stmt::Expr` is called `ExprStmt`.
- `RootJvm.ProgramCorrect`: in `src/jvm.rs` the first variable takes slot 0, which holds `main`'s argument array.
  - The program never reads that array, so nothing it prints changes (`RootJvm.ArgsSlotOverwritten` shows the overwrite).
  - The locals limit is one more than the slots the code uses.

- CodegenUtils.Join: `join` is imported by `vtable.rs` and `code_generator.rs` from the code generator's `utils` module, but the `utils.rs` of this model defines only `string_to_hex`, `char_to_hex` and `concat`. Its definition here is assumed from the call sites, not read: `sep` between consecutive items and nothing else, and the callers map the items to text first.
- Optimizer: the statement rewrites of `OptStmt` and `OptStmts` have no statement semantics here. This covers folding `if` and `while` on a literal condition, cutting the statements after a returning one, and dropping empty statements. They are proved to keep the return check (`ReturnCheckPreserved`) and to add no string literal (`NoNewStrings`), but not to keep what a program does. Only expression folding is proved sound (`OptimisationSound`), and only for expressions that have a value.
- Optimizer.OptimisationSound: `Eval` compares strings by content, and the fold of two string literals under `==` and `!=` (latte/src/optimization/expr.rs:79-85) is sound only for that equality. The generated code compares addresses instead. Each evaluation of a string literal allocates a fresh `%string_t` through `add_str_load` (latte/src/code_generation/code_generator.rs:258-270). `generate_eq` (latte/src/code_generation/expr.rs:157-172) then emits `icmp eq` on the two pointers. So unoptimised, `"a" == "a"` is false, and folding makes it true. Generated code has no semantics in this model, so the model does not show that difference.
- CodeGen.CodeGenerator.AddStringConstant: the emitter declares what the source writes, with unpadded escapes. The property that the constant holds the string's bytes is proved only for the corrected body (`FixedStringConstantBody`).

## Findings

| source | as written | input that shows it | evidently intended | confidence | as-written member | corrected member |
|---|---|---|---|---|---|---|
| latte/src/parser/type.c:7-10 | `malloc(strlen(type) + 1)`, then `strcpy(res + 1, type)` writes `strlen(type) + 2` bytes | `"int"`: five bytes go into a four-byte buffer | allocate `strlen(type) + 2` bytes | high; not executed | ParserC.ArrayTypeOverrun | ParserC.ArrayTypeSize |
| latte/src/code_generation/class_data.rs:53-59 | a field's id is its index, plus 1 only when there is a superclass | the first field of a root class gets id 0, yet `add_class_declare` (latte/src/code_generation/code_generator.rs:101-109) puts the vtable pointer in slot 0 | add 1 for root classes too, since every struct begins with the vtable pointer or the superclass struct | medium; not executed | ClassLayout.RootFirstFieldHitsVtable | ClassLayout.FieldIdAddressesField |
| latte/src/code_generation/utils.rs:5-7 | `format!("\\{:X}", c)` has no zero padding | a newline, byte 10, becomes `\A`, so `add_string_constant` declares `[2 x i8] c"\A\00"`. LLVM copies a backslash not followed by two hex digits, so the body holds the three bytes `\`, `A` and 0, which do not fit the declared type | `format!("\\{:02X}", c)` | high; not executed | CodeGen.NewlineConstantMisread | CodeGen.StringConstantHoldsString |
| instant/src/helpers.rs:25-28 | an assignment adds its name before checking its right-hand side | `x = x;` passes the check, yet both backends panic on it (instant/src/jvm.rs:242-250, src/jvm.rs:107-114) | check the right-hand side first, then add the name | high; not executed | InstantCheck.SelfReadPasses | InstantCheck.FixedCheckMatchesBackends |
