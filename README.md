# A verified model of the code generator's lowering to RISC-V assembly

This project models `CodeGenerator`, the backend of a small compiler for a
C-like language. The generator walks the abstract syntax tree in post-order.
For every node, `postprocess` combines the children's *code objects* into the
node's own code object. A code object holds:

- the instruction list;
- the register holding the value;
- whether the node is an lvalue;
- its type;
- the symbol table entry, when the node is a variable.

The generator's only state is its counters:

- the integer and float temporary counters, which restart at every function;
- the placeholder, loop, else and out label counters, which run for the whole program;
- the name of the function being lowered.

The model has two layers:

- **Specification functions** thread that state as a value `Gen`:
  - `Resolve` covers `rvalify` and address generation.
  - `Expressions`, `Control` and `Calls` hold one `postprocess` each.
  - `Lowering` is the post-order walk.

  Each function returns the result, or the error the Java code throws, together with the next state.
- **The class `CodeGen.CodeGenerator`** has the Java class's counter fields. Each of its methods updates them in place. Each method is proved to give exactly the result and the new state that the specification function gives for the old state. The loops over saved registers, statement lists, functions, arguments and sibling nodes are `for` and `while` loops with invariants.

The properties are proved as lemmas about the specification functions:

- **Freshness:** a temporary is not in use when it is drawn. A temporary drawn after a function-free expression or statement was lowered is none of those in use before it. Label names of one family are equal only when drawn at the same counter value, and the label counters never move back, so a label drawn before lowering a node is not drawn again after it.
- **Shape:** the exact code emitted for each construct, including the quirks of the Java code.
- **Stack pointer:** the sum of the `addi sp` adjustments of the emitted code (other writes to `sp`, namely the epilogue's `mv fp, sp`, are not counted). For every construct other than a function these adjustments sum to zero. A function's frame and a call's frame have the offsets the calling convention relies on.

The conversion instructions `ImovF` and `FmovI`, and the AST node `CastNode`, are modelled as far as the generator uses them.

## Model

| member | source | states |
|---|---|---|
| Instructions.ConversionToString | java/assembly/instructions/ImovF.java:28-30 | The rendering is the mnemonic (`IMOVF.S`, or `FMOVI.S` as in FmovI.java lines 28-30), a space, the destination, a comma and a space, then the first constructor argument (the source). Its length is the sum of those parts, so the two conversions of the same operands differ only in the mnemonic. |
| Instructions.Relabel | java/assembly/CodeGenerator.java:1062-1068 | Setting the deferred label changes only the target of a branch and leaves every other instruction as it was. |
| CastNodes.GetTypeFromString | java/ast/CastNode.java:25-31 | "int" gives INT and "float" gives FLOAT. Any other name fails with "Unrecognized type". |
| CastNodes.NewCastNode | java/ast/CastNode.java:20-23 | Construction succeeds exactly when the type name is recognised. It then keeps the operand and exactly the type the name denotes. An unrecognised name fails with "Unrecognized type". |
| CastNodes.CastNodeAccessors | java/ast/CastNode.java:20-49 | A node built from "int" or "float" hands back the operand it was given and the type INT or FLOAT respectively. |
| Alloc.NewTemp | java/assembly/CodeGenerator.java:1672-1680 | `generateTemp` succeeds exactly on INT, FLOAT and PTR. It leaves the state unchanged on failure and never decreases a counter. |
| Alloc.Preprocess | java/assembly/CodeGenerator.java:1230-1237 | Entering a function keeps each of the four label counters equal to its old value, records the function's name, and leaves no temporary in use. |
| Alloc.NewUnknownLabel | java/assembly/CodeGenerator.java:1682-1684 | Drawing a placeholder label bumps only its own counter. |
| Alloc.NewLoopLabel | java/assembly/CodeGenerator.java:1685-1687 | Drawing a loop label bumps only its own counter. |
| Alloc.NewElseLabel | java/assembly/CodeGenerator.java:1689-1691 | Drawing an else label bumps only its own counter. |
| Alloc.NewOutLabel | java/assembly/CodeGenerator.java:1693-1695 | Drawing an out label bumps only its own counter. |
| Freshness.FunctionLabelParts | java/assembly/CodeGenerator.java:1701-1707 | A function's entry label is `func_` followed by its name. The return label of the current function is `func_ret_` followed by its name, which is the entry label of `ret_` plus that name. |
| Freshness.FunctionLabelsDistinct | java/assembly/CodeGenerator.java:1682-1707 | Entry labels are equal exactly when the names are. The return label differs from the current function's entry label. No entry label is ever a placeholder, loop, else or out label. |
| Freshness.UsedTempsGrow | java/assembly/CodeGenerator.java:1672-1680 | Temporaries in use only accumulate while the counters grow. |
| Freshness.LaterTempsFresh | java/assembly/CodeGenerator.java:1672-1680 | In any later state of the same function, the next temporary drawn was not in use in the earlier state. |
| Freshness.LaterLabelsDiffer | java/assembly/CodeGenerator.java:1682-1695 | A label drawn in one state differs from the label of the same family drawn in any later state. |
| Freshness.NewTempFresh | java/assembly/CodeGenerator.java:1672-1680 | The temporary drawn was not in use. Afterwards exactly it has been added. FLOAT draws `f<n>`, INT and PTR draw `t<n>`. |
| Freshness.TempNamesDistinct | java/assembly/CodeGenerator.java:1672-1680 | Integer and float temporary names never coincide. Within a family, names are equal exactly when their numbers are. |
| Freshness.LabelNamesInjective | java/assembly/CodeGenerator.java:1682-1695 | Two labels of one family are equal exactly when they were drawn at the same counter value. |
| Freshness.LabelFamiliesDisjoint | java/assembly/CodeGenerator.java:1682-1695 | Placeholder, loop, else and out labels never collide across families. |
| Freshness.PreprocessResets | java/assembly/CodeGenerator.java:1230-1237 | After `preprocess` no label counter has moved, no temporary is in use, the current function is recorded, and the next temporaries drawn are `t1` and `f1`. |
| Resolve.AddrFromVariable | java/assembly/CodeGenerator.java:1841-1864 | One instruction into one fresh integer temporary. It is an `la` exactly when the variable is global. |
| Resolve.Rvalify | java/assembly/CodeGenerator.java:1717-1829 | Succeeds exactly on INT, FLOAT and PTR. The result is an rvalue of the same type with a register, and the counters only grow. |
| Resolve.RvalifyIfLval | java/assembly/CodeGenerator.java:1717-1829 | An lvalue becomes an rvalue of the same type. An rvalue is returned unchanged. |
| Resolve.LoadOperand | java/assembly/CodeGenerator.java:177-268 | An rvalue operand contributes its code and its register and draws nothing. |
| Resolve.ResolveOkIff | java/assembly/CodeGenerator.java:177-268 | Resolving an operand, as an rvalue or as a loaded operand, fails exactly when it is an lvalue whose type is not INT, FLOAT or PTR. |
| ExpressionProps.RvalifyLocal | java/assembly/CodeGenerator.java:1727-1756 | A local is one load from its frame slot, followed by the operand's code. The load writes a fresh temporary, which is the only one drawn. |
| ExpressionProps.RvalifyGlobal | java/assembly/CodeGenerator.java:1758-1773 | A global INT or FLOAT is an `la` of its address, the operand's code, then a load from offset 0 of that address register. The two registers are distinct and fresh. |
| ExpressionProps.RvalifyGlobalPointerRepeats | java/assembly/CodeGenerator.java:1774-1784 | A global PTR appends the operand's code twice, once before and once after the load. |
| ExpressionProps.RvalifyThroughRegister | java/assembly/CodeGenerator.java:1790-1816 | An lvalue without a symbol is its code followed by a load from offset 0 of its register into a fresh temporary. |
| Expressions.PostCast | java/assembly/CodeGenerator.java:122-156 | A cast yields an rvalue of the target type with no symbol. The counters only grow. |
| ExpressionProps.CastOkIff | java/assembly/CodeGenerator.java:131-148 | For a numeric operand, the cast succeeds exactly when the target is INT or FLOAT. |
| ExpressionProps.CastConverts | java/assembly/CodeGenerator.java:122-151 | For any numeric operand, lvalue or not, the operand is first resolved to an rvalue of its type. An equal target then reuses that code, register and state. A differing target appends to that code one `fmovi` (INT) or `imovf` (FLOAT) of the resolved register into the next temporary of the target family, which was in use neither before the cast nor after the resolution. |
| ExpressionProps.CastNodeLowers | java/ast/CastNode.java:20-49 | A cast node built from any recognised type name lowers without error over an INT or FLOAT operand. |
| Expressions.PostBinaryOp | java/assembly/CodeGenerator.java:172-474 | The result is an rvalue. Its type is FLOAT when the operand types differ and the common type otherwise. Success needs a scalar left type. |
| ExpressionProps.BinarySameType | java/assembly/CodeGenerator.java:274-304 | Two rvalues of one numeric type give their code followed by one instruction of that type's family into a fresh temporary. |
| ExpressionProps.BinaryMixed | java/assembly/CodeGenerator.java:177-346 | For any numeric operands of different types, both operands load successfully, left then right. The code is their code, then one `imovf` of the INT operand's register into the float temporary after the result's, then the float instruction into the result temporary. The result is FLOAT. |
| ExpressionProps.PointerArithmetic | java/assembly/CodeGenerator.java:177-377 | With a PTR left operand and any right operand that loads, the code is both operands' loaded code, then one integer instruction into a fresh integer temporary. The result is PTR exactly when the right operand is PTR, and FLOAT otherwise. |
| Expressions.PostUnaryOp | java/assembly/CodeGenerator.java:489-544 | Negation succeeds exactly on INT and FLOAT operands. The result is an rvalue of the operand's type. |
| ExpressionProps.NegateVariableReadsNull | java/assembly/CodeGenerator.java:492-508 | Negating a variable materialises its address but loads from the operand's own register, which a variable does not have (`null`). |
| ExpressionProps.NegateRvalue | java/assembly/CodeGenerator.java:496-535 | Negating an rvalue appends one `neg` or `fneg.s` of its register into a fresh temporary. |
| Expressions.PostAssign | java/assembly/CodeGenerator.java:562-672 | Assigning to a non-lvalue fails the assertion. A successful assignment is an lvalue with no type. |
| ExpressionProps.AssignGlobalStoresFromFp | java/assembly/CodeGenerator.java:562-607 | For a global target of type INT or FLOAT and any right operand of the same type, the code is an `la` of the address into a fresh register, the right operand resolved to an rvalue, and a store that still goes to the frame at the variable's address. |
| ExpressionProps.AssignConvertsBeforeStore | java/assembly/CodeGenerator.java:562-625 | For a local or global target and any numeric right operand of the other type, the code is the `la` (global only), the right operand resolved to an rvalue, one conversion (`fmovi` for INT, `imovf` for FLOAT) into a temporary that was not in use, and the store of that temporary. |
| ExpressionProps.AssignVariableStore | java/assembly/CodeGenerator.java:562-642 | For a local or global variable target that needs no conversion (INT or FLOAT with a right side of its own type, or PTR with any right side), the code is the `la` (global only), the right operand resolved to an rvalue, and one store of its register to the frame at the variable's address. The store is `fsw` exactly when the right side is FLOAT, so a PTR target uses `sw` for INT and PTR values. Nothing is drawn after the resolution. |
| ExpressionProps.AssignThroughPointer | java/assembly/CodeGenerator.java:562-666 | For an lvalue target without a symbol and any right operand that resolves, the result is the target's code, the right operand resolved to an rvalue, and a store through the target's register at offset 0. The state is the one after the resolution. |
| Expressions.PostPtrDeref | java/assembly/CodeGenerator.java:1539-1565 | Dereference yields an lvalue of the pointed-to type with no symbol. |
| Expressions.PostAddrOf | java/assembly/CodeGenerator.java:1582-1602 | Address-of yields an rvalue of pointer type. |
| Expressions.PostMalloc | java/assembly/CodeGenerator.java:1616-1637 | `malloc` yields an rvalue in a register. |
| Expressions.PostFree | java/assembly/CodeGenerator.java:1649-1665 | `free` has no type and ends with the `free` instruction. |
| Expressions.PostVar | java/assembly/CodeGenerator.java:56-65 | A variable is an lvalue of its declared type carrying its symbol, with no code and no register. |
| Expressions.PostIntLit | java/assembly/CodeGenerator.java:72-87 | An integer literal is an INT rvalue whose one instruction writes its register, the integer temporary counter moves up by one, and no label counter or the current function changes. |
| Expressions.PostFloatLit | java/assembly/CodeGenerator.java:94-109 | A float literal is a FLOAT rvalue whose one instruction writes its register, the float temporary counter moves up by one, and no label counter or the current function changes. |
| ProgramProps.IntLiteralLoadsFresh | java/assembly/CodeGenerator.java:72-87 | An integer literal is one `li` of its text into a fresh integer temporary, which becomes its register. The state changes only by that temporary. |
| ProgramProps.FloatLiteralLoadsFresh | java/assembly/CodeGenerator.java:94-109 | A float literal is one `fimm.s` into a fresh float temporary. |
| Control.PostRead | java/assembly/CodeGenerator.java:698-751 | A read succeeds exactly on a variable of type INT or FLOAT. It yields a statement with no register. |
| ControlProps.ReadShape | java/assembly/CodeGenerator.java:698-751 | A read into a local is a `geti`/`getf` into a fresh temporary and a store to the frame. A read into a global adds an `la` into a second fresh register and stores through it at offset 0. |
| Control.PostWrite | java/assembly/CodeGenerator.java:768-817 | A write needs an INT, PTR, FLOAT or STRING expression. A successful write ends with `puti` exactly for INT and PTR, `putf` exactly for FLOAT and `puts` exactly for STRING. |
| ControlProps.WriteShape | java/assembly/CodeGenerator.java:768-817 | Writing a string is the string's address load then `puts` of that register. Any other write is the expression resolved to an rvalue, then `putf` or `puti` of its register. |
| Control.FloatCompare | java/assembly/CodeGenerator.java:970-1012 | A float comparison is one or two instructions, draws at most two integer temporaries and changes nothing else. |
| Control.CondLeft | java/assembly/CodeGenerator.java:845-905 | A successful left operand that is a non-variable or an lvalue is numeric. The counters only grow. |
| Control.CondRight | java/assembly/CodeGenerator.java:909-931 | A successful right operand has code. An lvalue right operand is numeric. |
| Control.PostCond | java/assembly/CodeGenerator.java:845-1021 | A comparison is an lvalue of the left operand's numeric type, with code. It draws exactly one placeholder label. An INT comparison ends with a branch. |
| ControlProps.ReversedNegates | java/assembly/CodeGenerator.java:935-967 | The operator branched on holds exactly when the source comparison does not. |
| ControlProps.ReversedInvolutive | java/assembly/CodeGenerator.java:935-967 | Reversing an operator twice gives it back. |
| ControlProps.CondIntShape | java/assembly/CodeGenerator.java:860-969 | INT local against an rvalue: a load of the local into a fresh register, the right operand's code, then one integer branch on the two registers to a fresh placeholder label. |
| ControlProps.CondShape | java/assembly/CodeGenerator.java:845-1021 | Any successful comparison is the resolved left operand's code, the right operand's code, then the test on the two resolved registers against the next placeholder label of the state before the comparison: one integer branch on the operator for an INT left side, the float compare sequence for a FLOAT one. |
| ControlProps.CondLeftLoadsThroughRvalue | java/assembly/CodeGenerator.java:892-904 | A left operand without a symbol is loaded from offset 0 of its register even when it is an rvalue. |
| ControlProps.FloatEqIsNotABranch | java/assembly/CodeGenerator.java:972-976 | Float EQ is one `feq.s` whose destination is the label. It is not a branch, so patching leaves it alone. |
| ControlProps.FloatBranchReadsUnwrittenRegister | java/assembly/CodeGenerator.java:982-1002 | Float LT, LE and GT compare into one fresh register and branch on a second fresh register that nothing has written. |
| ControlProps.FloatGeBranchesOnTest | java/assembly/CodeGenerator.java:1003-1010 | Float GE compares with `flt.s` into a fresh register and branches to the label when it is zero. |
| Control.Patched | java/assembly/CodeGenerator.java:1062-1068 | Patching changes only the last instruction, re-targeting it when it is a branch. |
| ControlProps.PatchIgnoresNonBranch | java/assembly/CodeGenerator.java:1062-1068 | A condition not ending in a branch is left unchanged. |
| Control.PostIf | java/assembly/CodeGenerator.java:1047-1096 | `if` fails exactly on an empty condition. It draws one else label and one out label. |
| ControlProps.IfLayout | java/assembly/CodeGenerator.java:1047-1096 | Condition re-targeted to the else label (or the out label), then code, jump, else label, else code, out label. The two labels differ. |
| Control.PostWhile | java/assembly/CodeGenerator.java:1121-1165 | `while` fails exactly on an empty condition. It draws one loop label and one out label. |
| ControlProps.WhileLayout | java/assembly/CodeGenerator.java:1121-1165 | Loop label, condition re-targeted to the out label, body, jump back, out label. The two labels differ. |
| Control.PostStatementList | java/assembly/CodeGenerator.java:678-687 | A statement list is a statement whose code is its statements' code, in order. |
| ControlProps.ConcatCodeAppend | java/assembly/CodeGenerator.java:678-687 | A statement list's code splits at any point into the code of the two parts. |
| Calls.PostReturn | java/assembly/CodeGenerator.java:1181-1227 | A VOID function's return emits nothing and draws nothing. Otherwise a successful return ends with a jump to the function's return label. |
| CallProps.FunctionBrackets | java/assembly/CodeGenerator.java:1265-1339 | A function's code is a statement that is longer than its body, starts with the label `func_<name>` and ends with `ret`. |
| CallProps.FunctionLayout | java/assembly/CodeGenerator.java:1265-1310 | The body sits right after the prologue and the register saves (five instructions plus two per saved temporary) and is followed at once by the function's return label. |
| CallProps.ReturnStoresToSlot | java/assembly/CodeGenerator.java:1187-1218 | In a non-VOID function, `return e` for any scalar `e`, variable or not, is `e` resolved to an rvalue, a store of its register to `fp + 8` (`fsw` for FLOAT) and the jump to the function's return label. |
| CallProps.ReturnWithoutValueFails | java/assembly/CodeGenerator.java:1181-1227 | A non-VOID return without a value fails as a null dereference. |
| CallProps.VoidReturnDropsValue | java/assembly/CodeGenerator.java:1181-1227 | In a VOID function, `return e` drops the code of `e` entirely, while the names `e` drew stay drawn. |
| CallProps.SaveShape | java/assembly/CodeGenerator.java:1288-1300 | The register saves are, for each temporary 1..n in order, a store to `0(sp)` followed by `sp -= 4`. |
| CallProps.RestoreShape | java/assembly/CodeGenerator.java:1311-1323 | The restores are, from n down to 1, `sp += 4` then a load from `0(sp)`. |
| CallProps.RestoreReversesSave | java/assembly/CodeGenerator.java:1288-1323 | The load at restore position 2j+1 reloads, with the load matching the store, the register that the save at position 2(n-1-j) stored: registers come back in the reverse of the order they were saved. |
| CallProps.SavedRegistersAreUsed | java/assembly/CodeGenerator.java:1288-1300 | The registers a function saves are exactly the temporaries its body drew. |
| CodeGen.CodeGenerator.SaveTemps | java/assembly/CodeGenerator.java:1288-1300 | The save loop yields the save sequence. |
| CodeGen.CodeGenerator.RestoreTemps | java/assembly/CodeGenerator.java:1311-1323 | The restore loop yields the restore sequence. |
| StackDiscipline.LinkageOffsets | java/assembly/CodeGenerator.java:1462-1486 | Within the call linkage `sp` is at -4 once the return slot is reserved, at -8 once `ra` is pushed, back at -4 after the first pop, and at 0 at the end. |
| CallProps.CallCode | java/assembly/CodeGenerator.java:1401-1521 | A call is the argument pushes, the linkage, the load of the result from `0(sp)` and the pop of 4 per argument. |
| CallProps.CallFrame | java/assembly/CodeGenerator.java:1420-1514 | With balanced arguments, `ra` sits at `-4n-4`, the callee is entered at `-4n-8`, the result is read at `-4n` (the callee's `fp + 8`), and `sp` ends where it began. |
| Calls.PushArg | java/assembly/CodeGenerator.java:1421-1459 | Pushing an argument ends with `sp -= 4`. |
| Calls.PostCall | java/assembly/CodeGenerator.java:1401-1521 | A count or type mismatch exits with status 7. A successful call is an rvalue of the declared type in a register. |
| Calls.PushArgsStopsAtFailure | java/assembly/CodeGenerator.java:1421-1459 | An argument that fails aborts the whole call the same way. |
| ProgramProps.FunctionPlacement | java/assembly/CodeGenerator.java:1353-1368 | The program starts with `mv`, `jr func_main`, `halt` and a blank. Each function's code follows those before it, is followed by a blank, and precedes those after it. |
| ProgramProps.JoinFunctionsAppend | java/assembly/CodeGenerator.java:1362-1365 | Joining two lists of functions is joining each and concatenating. |
| Lowering.ArgTypes | java/assembly/CodeGenerator.java:1410-1418 | One static type per argument node, in order. |
| Lowering.Lower | java/assembly/CodeGenerator.java:56-1665 | The walk stands for the visitor, which is left out; each case lowers the node's children and then applies that node's `postprocess` in this range. Lowering any node, functions included, never moves a label counter back. |
| LoweringProps.LowerExtends | java/assembly/CodeGenerator.java:172-1227 | Lowering a node that contains no function, whether it succeeds or fails, never moves any counter back and keeps the current function. |
| LoweringProps.LowerKeepsTempsFresh | java/assembly/CodeGenerator.java:1672-1680 | After lowering a node that contains no function, the next temporary drawn is none of those in use before it. |
| LoweringProps.LowerNeverRepeatsLabels | java/assembly/CodeGenerator.java:1682-1695 | A placeholder, loop, else or out label drawn before a node is lowered is not drawn again right after it. |
| Lowering.LowerAll | java/assembly/CodeGenerator.java:678-687 | One code object per sibling node. Label counters never move back. |
| Lowering.LowerAllStopsAtFailure | java/assembly/CodeGenerator.java:678-687 | The sibling walk stands for the visitor, which is left out; it lowers the children handed to the `postprocess` of a statement list, a function list (1353-1368) or a call (1401-1521). Once a sibling fails, the list fails with the same error and state. |
| StackDiscipline.RvalifyBalanced | java/assembly/CodeGenerator.java:1717-1829 | Resolving an lvalue whose code is balanced gives balanced code. |
| StackDiscipline.BinaryOpBalanced | java/assembly/CodeGenerator.java:172-474 | A binary operation of balanced operands has `addi sp` adjustments summing to zero. |
| StackDiscipline.AssignBalanced | java/assembly/CodeGenerator.java:562-672 | An assignment of balanced operands has `addi sp` adjustments summing to zero. |
| StackDiscipline.CondBalanced | java/assembly/CodeGenerator.java:845-1021 | A comparison of balanced operands has `addi sp` adjustments summing to zero. |
| StackDiscipline.IfBalanced | java/assembly/CodeGenerator.java:1047-1096 | `if` over balanced parts has `addi sp` adjustments summing to zero. |
| StackDiscipline.WhileBalanced | java/assembly/CodeGenerator.java:1121-1165 | `while` over balanced parts has `addi sp` adjustments summing to zero. |
| StackDiscipline.ReturnBalanced | java/assembly/CodeGenerator.java:1181-1227 | `return` of a balanced value has `addi sp` adjustments summing to zero. |
| StackDiscipline.PushArgsMove | java/assembly/CodeGenerator.java:1421-1459 | Pushing n balanced arguments has `addi sp` adjustments summing to exactly -4n. |
| StackDiscipline.CallBalanced | java/assembly/CodeGenerator.java:1401-1521 | A call with balanced arguments has `addi sp` adjustments summing to zero. |
| StackDiscipline.LowerBalanced | java/assembly/CodeGenerator.java:172-1227 | Every construct that contains no function, lowered successfully, has `addi sp` adjustments that sum to zero. |
| StackDiscipline.FunctionFrame | java/assembly/CodeGenerator.java:1265-1339 | For a function over a balanced body, the `addi sp` adjustments sum to `-(4 + 4*numLocals)`, the prologue's reservation: the saves and restores cancel, so `sp` sits that far below its entry value just before the epilogue's `mv fp, sp` (not counted as an adjustment) restores it. |
| StackDiscipline.LowerFunctionFrame | java/assembly/CodeGenerator.java:1265-1339 | For a lowered function node whose body holds no nested function, the `addi sp` adjustments likewise sum to `-(4 + 4*numLocals)`; the epilogue's `mv fp, sp` then restores `sp`. |
| CodeGen.CodeGenerator.constructor | java/assembly/CodeGenerator.java:27-34 | All counters start at zero with no current function. |
| CodeGen.CodeGenerator.GenerateTemp | java/assembly/CodeGenerator.java:1672-1680 | Bumps the right counter in place, giving the name and state of `NewTemp`. |
| CodeGen.CodeGenerator.GenerateUnknownLabel | java/assembly/CodeGenerator.java:1682-1684 | Bumps the placeholder counter and returns its label. |
| CodeGen.CodeGenerator.GenerateLoopLabel | java/assembly/CodeGenerator.java:1685-1687 | Bumps the loop counter and returns its label. |
| CodeGen.CodeGenerator.GenerateElseLabel | java/assembly/CodeGenerator.java:1689-1691 | Bumps the else counter and returns its label. |
| CodeGen.CodeGenerator.GenerateOutLabel | java/assembly/CodeGenerator.java:1693-1695 | Bumps the out counter and returns its label. |
| CodeGen.CodeGenerator.RvalifyIfLval | java/assembly/CodeGenerator.java:1717-1829 | Result and new state are those of `Resolve.RvalifyIfLval`. |
| CodeGen.CodeGenerator.LoadOperand | java/assembly/CodeGenerator.java:177-268 | Result and new state are those of `Resolve.LoadOperand`. |
| CodeGen.CodeGenerator.PostVar | java/assembly/CodeGenerator.java:56-65 | The code object is that of `Expressions.PostVar`. |
| CodeGen.CodeGenerator.PostIntLit | java/assembly/CodeGenerator.java:72-87 | Result and new state are those of `Expressions.PostIntLit`. |
| CodeGen.CodeGenerator.PostFloatLit | java/assembly/CodeGenerator.java:94-109 | Result and new state are those of `Expressions.PostFloatLit`. |
| CodeGen.CodeGenerator.CondLeft | java/assembly/CodeGenerator.java:845-905 | Result and new state are those of `Control.CondLeft`. |
| CodeGen.CodeGenerator.CondRight | java/assembly/CodeGenerator.java:909-931 | Result and new state are those of `Control.CondRight`. |
| CodeGen.CodeGenerator.FloatCompare | java/assembly/CodeGenerator.java:970-1012 | Code and new state are those of `Control.FloatCompare`. |
| CodeGen.CodeGenerator.PushArg | java/assembly/CodeGenerator.java:1421-1459 | Result and new state are those of `Calls.PushArg`. |
| CodeGen.CodeGenerator.PushArgs | java/assembly/CodeGenerator.java:1421-1459 | The loop gives the result and state of `Calls.PushArgs`. |
| CodeGen.CodeGenerator.Preprocess | java/assembly/CodeGenerator.java:1230-1237 | Resets the temporary counters and records the function, as `Alloc.Preprocess`. |
| CodeGen.CodeGenerator.GenerateAddrFromVariable | java/assembly/CodeGenerator.java:1841-1864 | Result and new state are those of `Resolve.AddrFromVariable`. |
| CodeGen.CodeGenerator.Rvalify | java/assembly/CodeGenerator.java:1717-1829 | Result and new state are those of `Resolve.Rvalify`. |
| CodeGen.CodeGenerator.PostCast | java/assembly/CodeGenerator.java:122-156 | Result and new state are those of `Expressions.PostCast`. |
| CodeGen.CodeGenerator.PostBinaryOp | java/assembly/CodeGenerator.java:172-474 | Result and new state are those of `Expressions.PostBinaryOp`. |
| CodeGen.CodeGenerator.PostUnaryOp | java/assembly/CodeGenerator.java:489-544 | Result and new state are those of `Expressions.PostUnaryOp`. |
| CodeGen.CodeGenerator.PostAssign | java/assembly/CodeGenerator.java:562-672 | Result and new state are those of `Expressions.PostAssign`. |
| CodeGen.CodeGenerator.PostStatementList | java/assembly/CodeGenerator.java:678-687 | The loop concatenates the statements' code in order. |
| CodeGen.CodeGenerator.PostRead | java/assembly/CodeGenerator.java:698-751 | Result and new state are those of `Control.PostRead`. |
| CodeGen.CodeGenerator.PostWrite | java/assembly/CodeGenerator.java:768-817 | Result and new state are those of `Control.PostWrite`. |
| CodeGen.CodeGenerator.PostCond | java/assembly/CodeGenerator.java:845-1021 | Result and new state are those of `Control.PostCond`. |
| CodeGen.CodeGenerator.PostIf | java/assembly/CodeGenerator.java:1047-1096 | Result and new state are those of `Control.PostIf`. |
| CodeGen.CodeGenerator.PostWhile | java/assembly/CodeGenerator.java:1121-1165 | Result and new state are those of `Control.PostWhile`. |
| CodeGen.CodeGenerator.PostReturn | java/assembly/CodeGenerator.java:1181-1227 | Result and new state are those of `Calls.PostReturn`. |
| CodeGen.CodeGenerator.PostFunction | java/assembly/CodeGenerator.java:1265-1339 | The code is `Calls.PostFunction` of the current state. |
| CodeGen.CodeGenerator.PostFunctionList | java/assembly/CodeGenerator.java:1353-1368 | The loop yields `Calls.PostFunctionList`. |
| CodeGen.CodeGenerator.PostCall | java/assembly/CodeGenerator.java:1401-1521 | Result and new state are those of `Calls.PostCall`. |
| CodeGen.CodeGenerator.PostPtrDeref | java/assembly/CodeGenerator.java:1539-1565 | Result and new state are those of `Expressions.PostPtrDeref`. |
| CodeGen.CodeGenerator.PostAddrOf | java/assembly/CodeGenerator.java:1582-1602 | Result and new state are those of `Expressions.PostAddrOf`. |
| CodeGen.CodeGenerator.PostMalloc | java/assembly/CodeGenerator.java:1616-1637 | Result and new state are those of `Expressions.PostMalloc`. |
| CodeGen.CodeGenerator.PostFree | java/assembly/CodeGenerator.java:1649-1665 | Result and new state are those of `Expressions.PostFree`. |
| CodeGen.CodeGenerator.Generate | java/assembly/CodeGenerator.java:56-1665 | The walk stands for the visitor, which is left out; it lowers a node's children and then calls the matching `postprocess` method of this range. It gives the result and state of `Lowering.Lower`. |
| CodeGen.CodeGenerator.GenerateAll | java/assembly/CodeGenerator.java:678-687 | The loop over siblings stands for the visitor, which is left out; it lowers the children handed to the `postprocess` of a statement list, a function list (1353-1368) or a call (1401-1521). It gives `Lowering.LowerAll` and stops at the first failure. |

## Left out

- The post-order visitor (`AbstractASTVisitor`) is not part of this model. The walk in `Lowering.Lower` assumes children are lowered left to right before their parent, and `preprocess` before a function body.
- `CodeObject`'s constructors are not part of this model. A fresh code object is taken to have empty code, no register, no type, no symbol, and to be an rvalue.
- `CondNode.getReversedOp` is not part of this model. It is taken to return the logical negation of the comparison.
- The `OpCode` enum is not part of this model. Its printed names (`IMOVF.S`, `FMOVI.S`) are those the conversion classes' comments give.
- Only the two conversion instructions are rendered as text. The other instruction classes' `toString`, and the assembly file the generator's output is printed to, are not part of this model.
- Java `assert` statements are modelled as enabled: a violated one is the failure `AssertionFailed`.
- The debug `System.out.println` in the STRING branch of `write` (java/assembly/CodeGenerator.java:778) is console output and is dropped; it does not change the emitted code.
- `System.exit(7)` after a type error becomes the failure `Exit(7)`. The message printed to standard error is dropped.
- Call type checking compares `Scope.Type` objects by reference. That identity is a parameter `sameType` of the model, since the front end that creates the type objects is not part of this model.
- Updating children's code objects in place (`left.code.addAll(...)`, `left.newtemp = ...`) is not modelled. The model returns new values, and nothing reads a child's code object after its parent's `postprocess`.
- The offsets `numLocals*4` and `4*args.size()` are unbounded integers. The model does not capture 32-bit overflow.
- `Instructions.Relabel` leaves non-branch instructions unchanged. The Java code sets their unused label field, which nothing prints.
- Floating-point values are never computed: literals are kept as their source text.
- The Python tools and shell scripts of the repository are outside the generator and are not modelled.
