# sxprlib in Dafny

This project models the core of `sxprlib`, an S-expression library for Python, and of its companion
`ratcomplex`, an exact complex-number type. The model covers:

- the data model: the `NIL` singleton, mutable `Cons` cells, interned `Symbol`s and `Char`s,
  `String`s and `Array`s, and the numbers int, `Fraction`, float and `Complex`;
- the cycle-tolerant list protocol of `Cons`: `len`, indexing, index assignment and iteration;
- the list functions `mklist`, `mkreverse`, `mkappend`, `nconc` and `member`;
- `Cons.__eq__`, which compares `repr` texts;
- the compact printer (`str`) and the indenting printer `sxpprint`;
- the character streamer, the one-token lookahead and the tokenizer with all of its flag-gated
  readings of bare tokens;
- the recursive-descent reader and `sxparse`;
- construction, interning, arithmetic, comparison and `str()` of `Complex`, and the reading back of that text.

Each module follows the code it models. Where the source changes state step by step, the model is
imperative: a `Streamer` class whose `Read` and `NextToken` update its fields, intern tables held
by `Registry` and `ComplexTable` objects, and list functions and a reader that build and rewrite
`Cons` cells in the heap with loops. Each such method is proved against a pure function of the
inputs or of the old state. That function is the specification, and lemmas state its properties.
For example:

- the tokenizer is the function `Lexer.Scan`, and `Streaming.Streamer.Tokenize` is proved equal to it;
- the grammar is `Reader.ParseObj`, and `Reader.ReadObj` is proved to build objects that denote the
  tree it yields, with each Symbol, Char and Complex the intern table's one entry under its key;
- `len` is proved to count the distinct cells of the spine;
- the printers are proved to write exactly the text of `Printer.Show` and `PrettyPrint.Pretty`.

A heap may hold cycles. Functions over the heap therefore take a ghost footprint, a set of cells
closed under `car` and `cdr`. Where Python recurses without end, the printing functions return
`None`: a quote form whose argument is itself, or a cycle through an `Array`.

The module-level switches `sxprlib_enable*` and `sxprlib_ignoreCase` are the record `Base.Config`,
passed to every operation that reads them. `Base.Defaults` holds the values the library ships with.

Modules, one file each:

| module | contents |
|---|---|
| `Base` | `Result`, errors, configuration |
| `Text` | ASCII character classes and digit strings |
| `Numbers` | int, Fraction, float |
| `Classify` | the token regular expressions |
| `Sexpr` | the value model |
| `Intern` | Symbol and Char construction |
| `RatComplex` | Complex numbers |
| `ConsList` | the list protocol and list functions |
| `Equality` | `==` |
| `Printer` | `str` |
| `PrettyPrint` | `sxpprint` |
| `Lexer` | the pure tokenizer |
| `Streaming` | the streamer class |
| `Reader` | the parser |
| `ComplexText` | the `#C` text of a Complex read back by the reader |
| `Samples` | concrete readings of small texts |

## Model

| member | source | states |
|---|---|---|
| Text.DigitValue | sxprlib.py:64-76 | a character's digit value is below 2, 8, 10, 16 or 36 exactly when it is a binary, octal, decimal, hexadecimal or alphanumeric ASCII digit |
| Text.DigitChar | sxprlib.py:397 | the digit written for a value reads back as that value |
| Text.NatToDigits | sxprlib.py:397 | the digits of a number are non-empty and each is a digit of the base |
| Text.DigitsRoundTrip | sxprlib.py:1196 | reading back the digits written for a number gives the number |
| Text.Hex | sxprlib.py:397 | the `{:0Nx}` text has at least N digits, all hexadecimal, and denotes the number |
| Text.ZeroPaddedValue | sxprlib.py:397 | leading zeros do not change the value of a digit string |
| Text.LowerString | sxprlib.py:484 | `lower()` maps each character to its ASCII lower case and keeps the length |
| Text.Capitalize | sxprlib.py:385 | `capitalize()` keeps the length |
| Numbers.GcdDivides | sxprlib.py:1199 | the gcd of two numbers, not both zero, is positive and divides both |
| Numbers.GcdOfMultiple | sxprlib.py:1199 | the gcd of a multiple of b and b is b |
| Numbers.MakeFraction | sxprlib.py:1199 | `Fraction(a, b)` fails with ZeroDivisionError exactly when b is 0; otherwise it has a positive denominator and the value a/b, and its denominator is 1 exactly when b divides a |
| Numbers.ReduceFracKeepsValue | ratcomplex.py:251-255 | reduction keeps the value and exactness, and no Fraction with denominator 1 survives it |
| Numbers.RatValue | ratcomplex.py:67-78 | an exact number's value is its numerator over its denominator |
| Numbers.Add | ratcomplex.py:160-167 | the sum has the sum of the values and is an int exactly when both operands are |
| Numbers.Neg | ratcomplex.py:157-158 | negation negates the value and keeps an int an int |
| Numbers.Sub | ratcomplex.py:178-185 | the difference has the difference of the values and is an int exactly when both operands are |
| Numbers.Mul | ratcomplex.py:196-203 | the product has the product of the values and is an int exactly when both operands are |
| Numbers.NumToString | ratcomplex.py:101-104 | the text of an exact number is never empty |
| Numbers.ParseInt | sxprlib.py:1231 | `int(s, base)` fails only with ValueError, and always fails for a base other than 0 and 2..36 |
| Numbers.PrefixBase | sxprlib.py:1231 | `int(s, 0)` reads the base off a 0b/0o/0x prefix, and takes 10 exactly when there is none |
| Numbers.BaseZero | sxprlib.py:1231 | `int(s, 0)` equals `int(s, 2)`, `int(s, 8)` or `int(s, 16)` under the matching prefix, and `int(s, 10)` for a text that does not start with 0 |
| Numbers.BaseZeroLeadingZero | sxprlib.py:1231 | `int(s, 0)` refuses a decimal text with a leading zero unless its value is zero |
| Lexer.RadixBase | sxprlib.py:1229 | the base of a radix token, `int(valstr[0], 10)` of one or two digits with no leading zero, lies between 1 and 99, so `int` never sees base 0 |
| Numbers.IntTextRoundTrip | sxprlib.py:1188-1189 | `int(str(i))` is i for every int i |
| Classify.Unsigned | sxprlib.py:64-76 | dropping the optional sign shortens the text exactly when it starts with `+` or `-` |
| Classify.SlashIndex | sxprlib.py:64-76 | the index found is the first `/`, or the end of the text when there is none |
| Classify.RadixBaseLength | sxprlib.py:68-70 | the base of a radix token is at most two characters long, and at least two more characters follow it |
| Classify.NoExponentInDigits | sxprlib.py:71-73 | a run of digits has no exponent letter |
| Classify.NoDotInDigits | sxprlib.py:71-73 | a run of digits has no dot |
| Classify.IntegerIsNumber | sxprlib.py:1188-1193 | every integer token also matches the float pattern, so the integer test has to come first |
| Classify.SharpFormsAreNotDecimal | sxprlib.py:64-76 | a `#b`, `#o`, `#x` or radix token matches none of the integer, float and fraction patterns |
| Sexpr.Cons.constructor | sxprlib.py:172-174 | a new cell holds the given car and cdr |
| Sexpr.Symbol.constructor | sxprlib.py:489-490 | a new Symbol holds its text |
| Sexpr.Char.constructor | sxprlib.py:388-389 | a new Char holds its character |
| Sexpr.String.constructor | sxprlib.py:565-567 | a new String holds its text |
| Sexpr.Array.constructor | sxprlib.py:629-632 | a new Array holds its dimension and its list |
| Sexpr.Car | sxprlib.py:696-698 | `car` is defined exactly on NIL and on Cons cells, NIL's car is NIL, and on any other object it is an AttributeError |
| Sexpr.Cdr | sxprlib.py:701-703 | `cdr` is defined exactly on NIL and on Cons cells, NIL's cdr is NIL, and on any other object it is an AttributeError |
| Sexpr.ClosedSpine | sxprlib.py:194 | a footprint closed under car and cdr contains every cdr chain that starts in it |
| Intern.NamesReadBack | sxprlib.py:348-368 | every name a Char prints with is a name it can be read by, and names that character |
| Intern.RemoveMarkers | sxprlib.py:384 | removing every `#\` never lengthens the text |
| Intern.CharWord | sxprlib.py:460-461 | the text a Char name is looked up by is never longer than the argument |
| Intern.CodeChar | sxprlib.py:455-459 | a code gives a character exactly when it is at most 0x10FFFF and no surrogate; a larger code is a ValueError |
| Intern.WordChar | sxprlib.py:462-465 | a word names a character exactly when it is one character long or its capitalized form is a known name; otherwise ValueError |
| Intern.ResolveChar | sxprlib.py:379-385 | `Char(s)` raises ValueError exactly when `Char.IsChar(s)` is false |
| Intern.HexForm | sxprlib.py:381-382 | `#\x` followed by hex digits is a hex character form whose digits start at index 3 |
| Intern.HexCodeChar | sxprlib.py:381-382 | `#\x` followed by the hex digits of a character's code reads as that character |
| Intern.SymbolKey | sxprlib.py:483-484 | the key a Symbol is interned under has the length of its text |
| Intern.RemoveMarkersKeeps | sxprlib.py:383-384 | a text without `#` is left unchanged by removing `#\` |
| Intern.SingleCharForms | sxprlib.py:460-463 | `#\c` and the bare one-character text `c` both read as the character c |
| Intern.CapitalizeKeepsSharp | sxprlib.py:385 | capitalizing keeps every `#` in place |
| Intern.NameShape | sxprlib.py:348-358 | every character name has at least three letters, holds no `#` and starts with neither `u` nor `x` |
| Intern.NoSharpInName | sxprlib.py:465 | a word whose capitalized form is a character name holds no `#` |
| Intern.NamedChar | sxprlib.py:383-385 | a character name after `#\`, or standing alone, reads in any letter case as the character it names |
| Intern.SpaceName | sxprlib.py:356 | `Space` is its own capitalized form |
| Intern.Registry.constructor | sxprlib.py:347 | the intern tables start empty |
| Intern.Registry.MakeSymbol | sxprlib.py:474-492 | ValueError exactly when the key is empty; otherwise the table's Symbol for the key, made and stored only when the key was absent; the Char table is unchanged |
| Intern.Registry.MakeChar | sxprlib.py:370-391 | the error of resolving the text, or the table's Char for the resolved character, made and stored only when it was absent; the Symbol table is unchanged |
| Intern.Registry.SymbolTwice | sxprlib.py:487-492 | asking twice for the same non-empty Symbol text gives the identical object |
| Intern.Registry.SpaceIsOneChar | sxprlib.py:385-391 | `Char("#\\Space")` is the very object `Char(" ")` returns |
| RatComplex.Complex.constructor | ratcomplex.py:81-84 | a new Complex holds its two parts |
| RatComplex.ReduceComp | ratcomplex.py:258-264 | reduction keeps both values, leaves no Fraction with denominator 1, keeps exactness, and gives a plain number exactly when the imaginary value is 0 |
| RatComplex.KeyDeterminesValue | ratcomplex.py:67-79 | two numbers with the same intern key have the same real and imaginary values |
| RatComplex.Combine | ratcomplex.py:47-62 | arguments a+bi and c+di combine into the real part a-d and the imaginary part b+c, and exact arguments give exact parts |
| RatComplex.ComplexTable.constructor | ratcomplex.py:44 | the instance table starts empty |
| RatComplex.ComplexTable.New | ratcomplex.py:46-86 | a zero imaginary part returns the reduced real part and leaves the table alone; otherwise it returns the table's object for the key of the reduced parts, made and stored only when the key was absent |
| RatComplex.ComplexTable.Conjugate | ratcomplex.py:247-248 | the conjugate keeps the real value and negates the imaginary value, and is interned: it is the table's existing instance under its key, or a fresh one added under that key, and nothing else in the table changes |
| RatComplex.ComplexTable.NewTwice | ratcomplex.py:67-86 | two constructions whose reduced parts have the same key return the identical object |
| RatComplex.Plus | ratcomplex.py:160-167 | addition is componentwise, a real operand changes only the real part, and the result is a plain number exactly when the imaginary parts cancel |
| RatComplex.RPlus | ratcomplex.py:169-176 | the reflected sum has the componentwise values |
| RatComplex.Minus | ratcomplex.py:178-185 | subtraction is componentwise, and the result is a plain number exactly when the imaginary parts are equal |
| RatComplex.RMinus | ratcomplex.py:187-194 | the reflected difference is v minus self, componentwise, and is a plain number exactly when the imaginary parts are equal |
| RatComplex.Times | ratcomplex.py:196-203 | the product is (ac-bd)+(ad+bc)i, with a real operand scaling both parts |
| RatComplex.ScaledParts | ratcomplex.py:198-203 | (a+bi)x is ax+bxi, reduced |
| RatComplex.ProductParts | ratcomplex.py:198-203 | (a+bi)(c+di) is (ac-bd)+(ad+bc)i, reduced |
| RatComplex.RTimes | ratcomplex.py:205-212 | the reflected product is v times self |
| RatComplex.Negate | ratcomplex.py:157-158 | negation negates both parts |
| RatComplex.Positive | ratcomplex.py:154-155 | unary plus keeps both parts |
| RatComplex.EqualityIsValueEquality | ratcomplex.py:131-141 | `==` is equality of both components, and `!=` is exactly its negation |
| RatComplex.NeverEqualsReal | ratcomplex.py:131-141 | a Complex with a nonzero imaginary part never equals a real number |
| RatComplex.ToString | ratcomplex.py:88-107 | `str()` puts the parts' texts into the configured format: under sxprlib, `#C(` and `)` around them; by default the text ends in `i` and the sign of the imaginary part follows the real part's text |
| ConsList.SpineFrom | sxprlib.py:190-200 | the cells met along the cdr chain lie in the footprint and were not seen before |
| ConsList.SpineIsLinked | sxprlib.py:190-200 | the spine of a value is a run of distinct linked cells; it is empty exactly for a non-Cons or a seen cell, and it stops at an atom, a seen cell or a cell of its own |
| ConsList.LinkedIsSpine | sxprlib.py:190-200 | a linked run of cells that closes is exactly the spine from its first cell |
| ConsList.SpineOfList | sxprlib.py:190-200 | the spine of a list is its own cells, whether it ends in NIL, in an atom or in a cycle |
| ConsList.Length | sxprlib.py:190-200 | `len` is the number of distinct cells along the cdr chain |
| ConsList.Walk | sxprlib.py:207-213 | walking along the cdrs stays inside the footprint |
| ConsList.GetItem | sxprlib.py:202-217 | `c[n]` is the specification `GetItemSpec`: IndexError for a negative n or for stepping from an atom, otherwise the car of the cell reached or the atom itself |
| ConsList.WalkNil | sxprlib.py:209-213 | any walk from NIL stays at NIL |
| ConsList.WalkAlong | sxprlib.py:209-213 | m steps from the k-th cell reach cell k+m, or continue from the list's end |
| ConsList.IndexOnList | sxprlib.py:202-217 | on a list of n cells ending in an atom: a negative index is an IndexError; i<n gives the i-th car; after NIL every larger i gives NIL; an atom tail is index n, and later indices are IndexErrors |
| ConsList.WalkAdd | sxprlib.py:209-213 | walking a+b steps is walking a steps, then b |
| ConsList.IndexOnCycle | sxprlib.py:202-217 | on a cyclic list, indices below the cell count give each car, and from the start of the cycle on, indices repeat with the cycle's length |
| ConsList.SetWalk | sxprlib.py:227-236 | the slot reached lies inside the footprint |
| ConsList.SetItem | sxprlib.py:219-236 | `c[n] = x` writes exactly the slot `SetTarget` names, a car or the last cdr, and changes no other field; it raises IndexError exactly when there is no such slot |
| ConsList.SetTargetOnList | sxprlib.py:227-236 | from cell k of a list ending in an atom, m steps name cell k+m's car, one step past the end the last cdr, and further steps an IndexError |
| ConsList.SetItemOnList | sxprlib.py:219-236 | on a list of n cells: i<n replaces the i-th car, i=n replaces the last cdr, and a negative or larger i is an IndexError |
| ConsList.ElementsExtendSpine | sxprlib.py:679-690 | iteration yields the cars of the spine, then at most one more element: an atom tail |
| ConsList.ConsIterator.constructor | sxprlib.py:675-677 | a new iterator is due to yield the elements of the list |
| ConsList.ConsIterator.Next | sxprlib.py:679-690 | `__next__` yields the next due element; when none is left it stops, and forgets what it has visited |
| ConsList.Prepend | sxprlib.py:715 | a cell whose cdr is a list extends that list at the front |
| ConsList.Push | sxprlib.py:715 | `Cons(x, v)` is a fresh cell that puts x in front of the list v |
| ConsList.MkList | sxprlib.py:711-716 | `mklist(*args)` is a fresh proper list of the arguments, in order |
| ConsList.PushNext | sxprlib.py:804-808 | one turn of the `mkreverse` loop puts the element in front and keeps the loop invariant |
| ConsList.StartReversing | sxprlib.py:802-804 | the `mkreverse` loop starts with nothing taken |
| ConsList.ReversingDone | sxprlib.py:804-809 | when the loop stops, the result holds the taken elements reversed |
| ConsList.PushElements | sxprlib.py:802-809 | the `mkreverse` loop gives a fresh proper list of the first n elements, reversed |
| ConsList.MkReverse | sxprlib.py:796-809 | TypeError exactly for a non-list; otherwise a fresh proper list of the cars of the spine in reverse order |
| ConsList.SetLastCdr | sxprlib.py:826 | setting the last cdr of a linked run makes it a list with that end and keeps its cars |
| ConsList.Extend | sxprlib.py:822-823 | a fresh cell holding x is hung after the last cell of a linked run |
| ConsList.CopyOne | sxprlib.py:821-825 | one turn of the `mkappend` loop copies one more car and keeps the loop invariant |
| ConsList.CopyCells | sxprlib.py:821-825 | the `mkappend` loop copies every remaining car into fresh cells |
| ConsList.CopyList | sxprlib.py:817-827 | the Cons branch of `mkappend` is a fresh copy of the run's cars ending in l2, and leaves the cars of l1 unchanged |
| ConsList.MkAppend | sxprlib.py:812-829 | NIL gives l2 itself; a Cons gives fresh copies of the cells of l1 ending in the shared l2, and no existing cell changes; anything else is a TypeError |
| ConsList.LastCell | sxprlib.py:837-841 | `len(l) - 1` steps from a Cons reach the last distinct cell of its spine |
| ConsList.Nconc | sxprlib.py:832-845 | NIL gives l2 and changes nothing; a Cons gets l2 as the cdr of its last distinct cell, no other field changes, and l1 is returned; anything else is a TypeError |
| ConsList.SearchStep | sxprlib.py:853-857 | a miss with cells left moves the search to the next cell |
| ConsList.SearchEnd | sxprlib.py:853-858 | a hit is the first equal car, and a miss on the last cell means no car is equal |
| ConsList.Member | sxprlib.py:848-858 | `member` gives NIL exactly when no car of the spine equals s; otherwise it gives the first cell whose car equals s |
| Equality.Repr | sxprlib.py:297-340 | building the repr only numbers more cells, and only cells of the footprint |
| Equality.PyEqSymmetric | sxprlib.py:247-255 | `a == b` and `b == a` always agree |
| Equality.ConsEqualsOnlyCons | sxprlib.py:247-250 | a Cons equals only a Cons, and NIL only NIL |
| Equality.SingletonRepr | sxprlib.py:319-337 | the repr of a one-element list entered fresh takes the next number |
| Equality.EnterCell | sxprlib.py:319-337 | a cell not yet numbered is numbered, then its car's repr and its cdr's repr follow inside `Cons(...)` |
| Equality.PairListRepr | sxprlib.py:319-337 | the repr of a two-element list in terms of the reprs of its elements |
| Equality.SharedListRepr | sxprlib.py:319-321 | in `(x x)` with one shared cell x, the second x is written `<Cons at #1>` |
| Equality.DistinctListRepr | sxprlib.py:319-337 | in `(y z)` with two distinct cells, both are written in full |
| Equality.SharingIsVisible | sxprlib.py:247-249 | two lists that print alike but differ in sharing are not `==` |
| Printer.JsonChar | sxprlib.py:574 | a character's JSON escape starts with a backslash exactly for `"`, the backslash and control characters, and otherwise is the character itself |
| Printer.CollapseBackslashes | sxprlib.py:576 | collapsing backslash pairs never lengthens the text |
| Printer.CollapsePlain | sxprlib.py:576 | a text without backslashes passes through the collapse unchanged |
| Printer.JsonCharShape | sxprlib.py:574 | a backslash is escaped as two backslashes, and any other escape is one backslash followed by no backslash |
| Printer.HexEscapeShape | sxprlib.py:574 | `\u` followed by hex digits holds a single backslash |
| Printer.CollapseChar | sxprlib.py:576 | collapsing the escape of one character leaves its raw form |
| Printer.CollapseBody | sxprlib.py:576 | collapsing a JSON string body leaves every escape except the doubled backslash |
| Printer.UnescapedStringText | sxprlib.py:573-577 | with escapes off, a String prints as JSON with its backslashes left single |
| Printer.PlainCharText | sxprlib.py:398-400 | a character outside the control and Latin-1 range prints as `#\` followed by itself |
| Printer.CapitalizedWord | sxprlib.py:385 | a capital followed by small letters is its own capitalized form |
| Printer.NameCapitalized | sxprlib.py:359-368 | every printed character name is in capitalized form |
| Printer.NamedCharReadsBack | sxprlib.py:396-397 | a named low character prints as a text that reads back as that character |
| Printer.HexCharReadsBack | sxprlib.py:396-397 | an unnamed low character prints as `#\xHH`, which reads back as that character |
| Printer.CharTextReadsBack | sxprlib.py:393-404 | reading back what any Char prints gives the same character, so `Char(str(ch)) is ch` |
| Printer.SymbolChar | sxprlib.py:498-515 | each character translates to a non-empty text |
| Printer.Translate | sxprlib.py:498-515 | the translation never shortens the text |
| Printer.SymbolTextNotNumeric | sxprlib.py:494-526 | a printed Symbol never has the form of a number the reader would accept under the same flags |
| Printer.NotNumericFirst | sxprlib.py:516-525 | a text starting with `\|` or a backslash matches no numeric pattern |
| Printer.PlainTranslate | sxprlib.py:498-515 | a symbol whose characters need no escape translates to itself |
| Printer.Show | sxprlib.py:258-267 | the text of a list that is no quote or function form starts with `(` and ends with `)` |
| Printer.Sxpr2Str | sxprlib.py:258-267 | `__Sxpr2Str` returns exactly the specified text `Show` |
| Printer.ArrayStr | sxprlib.py:638-642 | `Array.__str__` returns exactly the specified text `ShowArray` |
| Printer.PrintingStep | sxprlib.py:281-292 | one turn of the `__Cons2SeqStr` loop prints the car and keeps the loop invariant, or ends the text at NIL |
| Printer.PrintingStops | sxprlib.py:275-283 | the loop ends with `. tail` at an atom, and with `...` at a cell already passed |
| Printer.PrintCell | sxprlib.py:284-292 | the loop body prints the car and either ends the text or keeps the loop invariant |
| Printer.Cons2SeqStr | sxprlib.py:270-294 | `__Cons2SeqStr` returns exactly the specified text `ShowFrom` |
| Printer.ConsStr | sxprlib.py:176-181 | `Cons.__str__` returns exactly `str(c)` as specified |
| Printer.AtomCell | sxprlib.py:284-292 | in a list of atoms, the text from cell k is its car's text, then the text of the rest |
| Printer.ItemsStep | sxprlib.py:287-292 | the element texts of a list of atoms are the first car's text, a space, and the rest |
| Printer.ListEnd | sxprlib.py:275-283 | a list of atoms ends in `...` when it turns back on itself and in `. x` for an atom tail x |
| Printer.AtomListFrom | sxprlib.py:274-294 | from cell k on, a list of atoms prints its cars separated by spaces, then its end |
| Printer.AtomListText | sxprlib.py:258-294 | a list of atoms prints as `(`, its cars separated by spaces, ` . tail` or ` ...` where needed, then `)` |
| Printer.ListShow | sxprlib.py:266 | a list that is no quote or function form prints as its `__Cons2SeqStr` text inside parentheses |
| Printer.QuotedAtomText | sxprlib.py:260-262 | with quoting on, `(quote x)` prints as `'x` |
| PrettyPrint.Sink.constructor | sxprlib.py:973-975 | the output starts empty |
| PrettyPrint.Sink.Write | sxprlib.py:1002 | writing appends the text to the output |
| PrettyPrint.Spaces | sxprlib.py:1002 | `" " * n` is n spaces |
| PrettyPrint.Indent | sxprlib.py:1001-1004 | at depth 0 nothing comes before `(`; deeper, a line break and n spaces |
| PrettyPrint.Peel | sxprlib.py:986-993 | the quote loop leaves an object that is no quote form, after one `'` per quote form passed; nothing is added exactly when it passed none |
| PrettyPrint.FunctionRef | sxprlib.py:994-998 | a function form of a Symbol adds `#'` and leaves the Symbol, and anything else is kept |
| PrettyPrint.Pretty | sxprlib.py:983-1045 | an object that is neither a list nor an array is written as a space and its `str()` |
| PrettyPrint.Block | sxprlib.py:1015-1042 | what follows the opening bracket always ends in `)` |
| PrettyPrint.Rest | sxprlib.py:1028-1042 | what the cdr loop writes always ends in `)` |
| PrettyPrint.PeelStart | sxprlib.py:986 | the quote loop starts with an empty prefix |
| PrettyPrint.PeelStep | sxprlib.py:988-992 | one turn of the quote loop adds `'` and moves to the quoted object |
| PrettyPrint.PeelDone | sxprlib.py:993 | when the loop leaves, the prefix and the object are what `Peel` specifies |
| PrettyPrint.PeelQuotes | sxprlib.py:986-993 | the quote loop computes exactly `Peel` |
| PrettyPrint.StrOf | sxprlib.py:1026 | `str(v)` is the compact printer's text |
| PrettyPrint.PrettyLayout | sxprlib.py:994-1044 | after the quote loop and the function-form check, the output is the layout of what is left |
| PrettyPrint.PrettySub | sxprlib.py:983-1045 | `__sxpprint_sub` appends exactly the specified text `Pretty` |
| PrettyPrint.WriteLayout | sxprlib.py:999-1044 | the writes after the prefix are exactly the specified layout |
| PrettyPrint.BlockStart | sxprlib.py:1019-1027 | after the first element, the cdr loop starts at the first cell's cdr with that cell passed |
| PrettyPrint.WritingStep | sxprlib.py:1028-1038 | one turn of the cdr loop writes the car and either closes with ` ...)` at a passed cell or keeps the loop invariant |
| PrettyPrint.WritingEnd | sxprlib.py:1039-1042 | the loop ends with `)` after NIL and ` . tail)` after any other atom |
| PrettyPrint.WriteBlock | sxprlib.py:1015-1042 | the part after the opening bracket writes exactly `Block` |
| PrettyPrint.WriteFirst | sxprlib.py:1020-1026 | the first element is written by a nested call for a Cons and by `str()` otherwise, exactly as `First` specifies |
| PrettyPrint.WriteRest | sxprlib.py:1028-1042 | the cdr loop writes exactly the rest of the specified text |
| PrettyPrint.WriteEnd | sxprlib.py:1039-1042 | the close of a list writes exactly the rest of the specified text |
| PrettyPrint.SxPPrint | sxprlib.py:973-980 | `sxpprint` writes the indented text from depth 0, then a line break |
| PrettyPrint.PeelShow | sxprlib.py:260-262 | a chain of quote forms around an atom prints the same prefix and atom in the compact printer |
| PrettyPrint.AtomPretty | sxprlib.py:1044 | anything the prefix loops reduce to an atom is written as a space and its compact text |
| PrettyPrint.SelfQuoteDiverges | sxprlib.py:987-992 | a quote form whose argument is itself makes the quote loop run forever |
| PrettyPrint.AtomItem | sxprlib.py:1044 | an atom car is written as a space and its text |
| PrettyPrint.RestEnd | sxprlib.py:1039-1042 | the cdr loop reaching the end of a list of atoms writes its end and `)` |
| PrettyPrint.RestCycle | sxprlib.py:1031-1036 | a cell met again gets its car written once more, then ` ...)` |
| PrettyPrint.RestAtoms | sxprlib.py:1028-1042 | from cell k on, the cdr loop over a list of atoms writes each car after a space, then the end |
| PrettyPrint.AtomCons | sxprlib.py:1028-1038 | a cell followed by another writes a space, its car, then the rest |
| PrettyPrint.AtomLast | sxprlib.py:1028-1042 | the last cell writes a space, its car, then the end of the list |
| PrettyPrint.AtomStep | sxprlib.py:1028-1038 | one turn of the loop over a list of atoms writes a space and the car's text, then the rest |
| PrettyPrint.BlockAtoms | sxprlib.py:1015-1042 | after the `(` of a list of atoms come its element texts, its end and `)` |
| PrettyPrint.PrettyAtomList | sxprlib.py:999-1042 | a list of atoms at depth n is written on a new line indented n, unless n is 0 |
| PrettyPrint.FlatListPretty | sxprlib.py:983-1045 | a proper or dotted list of atoms is written as its compact text, on its own line indented n |
| PrettyPrint.CyclicListPretty | sxprlib.py:1031-1036 | a cyclic list of atoms ends in ` ...)` in both printers, and the indenting printer repeats the car of the cell it met again |
| Lexer.Lookahead | sxprlib.py:1413-1419 | there is a lookahead character exactly while text is left |
| Lexer.Width | sxprlib.py:1386-1388 | a character takes one or two columns |
| Lexer.Read | sxprlib.py:1378-1389 | `read()` hands out the lookahead character and moves past it: a line break starts a new line at column 0, any other character adds its width, and at the end nothing moves |
| Lexer.Place | sxprlib.py:1370-1389 | after k characters the streamer is at position k, on a line from 1 on and a column from 0 on |
| Lexer.ReadKeepsPlace | sxprlib.py:1378-1389 | the line is one more than the line breaks read and the column is the width read since the last one |
| Lexer.SkipSpace | sxprlib.py:1085-1086 | skipping whitespace stops at a character that is not whitespace, and passes over nothing when none is there |
| Lexer.SkipLine | sxprlib.py:1087-1090 | a line comment only moves forward |
| Lexer.SkipBlock | sxprlib.py:1091-1103 | a block comment moves forward, or fails with EOFError at the position the reader last reported |
| Lexer.BlockCommentEnd | sxprlib.py:1091-1103 | a block comment fails exactly when no `\|#` closes it anywhere ahead; otherwise it ends just after the first one |
| Lexer.SkipLookSpace | sxprlib.py:1256-1257 | the lookahead whitespace loop stops where the lookahead is no whitespace |
| Lexer.EscapeDigits | sxprlib.py:1131-1160 | a numeric escape takes at most the allowed number of further digits, all of the base, and stops early only before a non-digit |
| Lexer.CodeOf | sxprlib.py:1138 | `{:c}` gives the character with the code, an OverflowError beyond 0x10FFFF |
| Lexer.NumericEscape | sxprlib.py:1131-1138 | a numeric escape yields one character, and fails only with OverflowError or on a character this model cannot hold |
| Lexer.Escape | sxprlib.py:1129-1173 | an escape yields at most one character and only moves forward, and fails only with OverflowError or on a character this model cannot hold |
| Lexer.HexEscape | sxprlib.py:1139-1162 | a hex escape yields one character, and fails only with OverflowError or on a character this model cannot hold |
| Lexer.StringBody | sxprlib.py:1125-1180 | the text ending before the closing quote is an EOFError at the reported position; a finished literal moves forward and extends what was read before |
| Lexer.PlainString | sxprlib.py:1125-1180 | without escapes, a string literal is an EOFError at the reported position exactly when no `"` lies ahead; otherwise it is the text up to the first `"`, and reading ends just after it |
| Lexer.UnterminatedString | sxprlib.py:1175-1178 | with or without escapes, a string literal with no `"` ahead fails: with EOFError at the reported position, or with an escape's own error |
| Lexer.Word | sxprlib.py:1181-1187 | a bare token is the text up to the next delimiter or the end, and holds no delimiter |
| Lexer.Ratio | sxprlib.py:1197-1201 | `Fraction(a, b)` fails with ZeroDivisionError exactly when b is 0; otherwise it is exact, has the value a/b, and is an int exactly when b divides a |
| Lexer.RadixToken | sxprlib.py:1221-1239 | a radix token is the Symbol of its own text exactly when `int()` fails on the numerator or the denominator in the base, or the denominator is 0; otherwise it is the int, or the Fraction, of the sign times the numerator over the denominator |
| Lexer.NumberToken | sxprlib.py:1188-1245 | an integer token is an int and a float token a float whatever the flags; a bare token is no number exactly when no enabled numeric pattern matches it |
| Lexer.SharpToken | sxprlib.py:1248-1271 | a `#` token that is no number gives a named token or fails only on a character this model cannot hold |
| Lexer.BareToken | sxprlib.py:1188-1273 | a bare token's reading never names the empty Symbol and only moves forward |
| Lexer.Scan | sxprlib.py:1081-1105 | the tokenizer moves forward, strictly when it yields a token, and never yields the empty Symbol |
| Lexer.LineEnd | sxprlib.py:1087-1090 | the end of a line comment lies between where it starts and the end of the text |
| Lexer.SkipLineEnd | sxprlib.py:1087-1090 | a line comment ends just after its first line break, or at the end of the text |
| Lexer.BlankScan | sxprlib.py:1081-1105 | over nothing but whitespace and line comments the tokenizer yields no token and stops at the end of the text |
| Lexer.Dispatch | sxprlib.py:1084-1103 | after whitespace and comments, a token comes only from a character that was read |
| Lexer.SkipSpaceDispatch | sxprlib.py:1084-1086 | skipping the whole run of whitespace first leads to the same token |
| Lexer.ScanToken | sxprlib.py:1104-1273 | the scan yields no token exactly at the end of the text |
| Lexer.Refill | sxprlib.py:1071-1072 | scanning the lookahead token keeps the reported position and moves forward, strictly when a token is found |
| Lexer.NextToken | sxprlib.py:1070-1078 | `_next_token` hands out the lookahead token, lowers what is left to read, and at the end keeps handing out `None` with the position set to the streamer's |
| Streaming.Streamer.constructor | sxprlib.py:1405-1411 | a new streamer stands at line 1, column 0, with nothing scanned |
| Streaming.Streamer.Read | sxprlib.py:1378-1389 | `read()` returns what `Lexer.Read` specifies and moves the streamer there |
| Streaming.Streamer.SkipSpaces | sxprlib.py:1084-1086 | the whitespace loop ends where `SkipSpace` specifies |
| Streaming.Streamer.SkipLineComment | sxprlib.py:1087-1089 | the line-comment loop ends where `SkipLine` specifies |
| Streaming.Streamer.SkipBlockComment | sxprlib.py:1091-1102 | the block-comment loop ends where `SkipBlock` specifies, or reports the EOFError it specifies |
| Streaming.Streamer.SkipLookSpaces | sxprlib.py:1256-1257 | the lookahead whitespace loop ends where `SkipLookSpace` specifies |
| Streaming.Streamer.ReadDigits | sxprlib.py:1132-1136 | the digit loop of an escape reads exactly the digits `EscapeDigits` specifies |
| Streaming.Streamer.ReadNumeric | sxprlib.py:1131-1138 | a numeric escape gives exactly the character or error `NumericEscape` specifies |
| Streaming.Streamer.ReadEscape | sxprlib.py:1129-1173 | what follows a backslash gives exactly what `Escape` specifies |
| Streaming.Streamer.ReadHex | sxprlib.py:1139-1162 | a hex escape gives exactly what `HexEscape` specifies |
| Streaming.Streamer.ReadString | sxprlib.py:1125-1180 | the string loop gives exactly the text or EOFError `StringBody` specifies |
| Streaming.Streamer.ReadBare | sxprlib.py:1181-1273 | the bare-token loop and its reading give exactly what `Word` and `BareToken` specify |
| Streaming.Streamer.ReadSharp | sxprlib.py:1248-1271 | a `#` token gives exactly what `SharpToken` specifies |
| Streaming.Streamer.ReadToken | sxprlib.py:1104-1273 | the token after whitespace and comments is exactly what `ScanToken` specifies |
| Streaming.Streamer.Tokenize | sxprlib.py:1081-1273 | `_sxpr_tokenizer` gives exactly the token and position `Lexer.Scan` specifies, and leaves the reported position and lookahead token alone |
| Streaming.Streamer.NextToken | sxprlib.py:1070-1078 | `_next_token` gives exactly the token and state `Lexer.NextToken` specifies |
| Reader.Quoted | sxprlib.py:1293-1296 | a quoted read succeeds exactly when the inner read does, and puts its tree under the quoting form |
| Reader.ParseObj | sxprlib.py:1283-1333 | a read object leaves the lookahead token scanned and never raises what is left to read; it lowers it strictly unless the text had already ended |
| Reader.ParseComplex | sxprlib.py:1299-1315 | a complex literal leaves the lookahead scanned and never raises what is left to read |
| Reader.ComplexDelim | sxprlib.py:1300-1309 | a complex literal's parenthesis leaves the lookahead scanned |
| Reader.ComplexNum | sxprlib.py:1302-1307 | a complex literal's real part leaves the lookahead scanned |
| Reader.ParseArray | sxprlib.py:1316-1326 | an array literal consumes at least its `(` |
| Reader.ParseList | sxprlib.py:1336-1363 | a list consumes at least its `)` |
| Reader.ParseRest | sxprlib.py:1343-1363 | the rest of a list consumes at least its `)` |
| Reader.DenotesGrow | sxprlib.py:1283-1363 | a read object still denotes its tree when more objects are added to the footprint and more entries to the intern tables |
| Reader.ChainDenotes | sxprlib.py:1340-1361 | a linked run of cells holding the items and ending in the tail denotes the list of the items with that tail |
| Reader.ListFirst | sxprlib.py:1340 | a list that does not start with `)` is its first object in front of the rest |
| Reader.RestItem | sxprlib.py:1360-1361 | one ordinary item of the list loop moves into the list's prefix |
| Reader.Finish | sxprlib.py:1340-1363 | the finished list denotes its items in front of its tail |
| Reader.ReadObj | sxprlib.py:1283-1333 | `_sxpr_read_obj` fails exactly as `ParseObj` does; otherwise it builds new objects that denote the tree it yields and ends in the same state. Every Symbol, Char and Complex in the result is the intern table's entry under its key, and the tables keep every entry they had |
| Reader.ReadSymbol | sxprlib.py:474-492 | a symbol token yields the one Symbol interned under its (case-folded) key; the tables keep every entry they had |
| Reader.ReadChar | sxprlib.py:370-391 | a character token yields the one Char interned for it; the tables keep every entry they had |
| Reader.MakeComplex | ratcomplex.py:67-86 | `Complex(re, im)` of a literal is the real part alone when the imaginary part is zero, otherwise the table's one instance under the normalised parts; the tables keep every entry they had |
| Reader.ReadQuoted | sxprlib.py:1293-1296 | a quote or function-reference read builds the quoting form around the object read after it, with the interned Symbol `quote` or `function`. The intern tables keep every entry they had. |
| Reader.MakeQuoted | sxprlib.py:1294 | `Cons(Symbol(name), Cons(x))` denotes the quoting form of x's tree, given that the Symbol is the table's entry for the name |
| Reader.ReadComplex | sxprlib.py:1299-1315 | the `#C` branch fails exactly as `ParseComplex` does and otherwise yields the interned Complex of its two parts. The intern tables keep every entry they had. |
| Reader.ReadComplexDelim | sxprlib.py:1300-1309 | the next token is checked exactly as `ComplexDelim` specifies |
| Reader.ReadComplexNum | sxprlib.py:1302-1307 | the next token is read exactly as `ComplexNum` specifies |
| Reader.ReadArray | sxprlib.py:1316-1326 | the Array branch fails exactly as `ParseArray` does, and otherwise yields an Array that denotes its tree. The intern tables keep every entry they had. |
| Reader.ReadList | sxprlib.py:1336-1363 | `_sxpr_read_list` fails exactly as `ParseList` does, and otherwise builds new cells that denote the list. The intern tables keep every entry they had. |
| Reader.ReadItems | sxprlib.py:1343-1363 | the list loop completes the list built so far exactly as `ParseRest` specifies. The intern tables keep every entry they had. |
| Reader.ReadItem | sxprlib.py:1360-1361 | one turn of the loop hangs a new cell holding the next object on the list, or fails as `ParseRest` does. The intern tables keep every entry they had. |
| Reader.Append | sxprlib.py:1360-1361 | `c.cdr = Cons(v)` extends the list by a fresh cell holding v |
| Reader.CloseList | sxprlib.py:1343-1363 | the end of the list loop, whether `)`, the end of the text or a dotted tail, is exactly what `ParseRest` specifies. The intern tables keep every entry they had. |
| Reader.PutTail | sxprlib.py:1351 | setting the last cdr to the dotted tail makes the list denote its items in front of that tail |
| Reader.ReadTail | sxprlib.py:1349-1359 | the dotted tail is read and closed exactly as `ParseRest` specifies. The intern tables keep every entry they had. |
| Reader.NothingButBlanks | sxprlib.py:1288-1291 | a text of nothing but whitespace and line comments reads as `None` |
| Reader.StrayToken | sxprlib.py:1329-1333 | a `)` or a `.` where an object should start is a SyntaxError naming that token, at the position after it |
| Reader.LastToken | sxprlib.py:1070-1078 | with only blanks left, `_next_token` hands out the pending token and leaves `None` pending at the end of the text |
| Reader.EndsAtOnce | sxprlib.py:1288-1291 | with `None` pending, an object reads as `None` and keeps `None` pending, and a list is a SyntaxError for the unexpected end |
| Reader.UnclosedList | sxprlib.py:1343-1348 | a list whose text ends before its `)`, with only blanks after the loop's next token, is a SyntaxError for the unexpected end, whether that token is the end itself, an atom, a quote mark or `(` |
| Reader.DottedTail | sxprlib.py:1349-1359 | after `.` and the tail object, a `)` closes the list with that tail, and any other token is a SyntaxError expecting `)` at the position after it |
| Reader.SxParse | sxprlib.py:1462-1466 | `sxparse` fails exactly as `ParseText` does, and otherwise yields new objects that denote the tree it specifies, with every Symbol, Char and Complex the intern table's entry. The intern tables keep every entry they had. |
| ComplexText.PartTokenValue | sxprlib.py:1188-1245 | the token an exact part reads as is a number with the part's value, and exact |
| ComplexText.IntChars | sxprlib.py:1188-1189 | `str(i)` is an optional `-` and at least one digit, whose sign and digits give back i |
| ComplexText.IntText | sxprlib.py:1188-1189 | `str(i)` is read by the tokenizer as the int i |
| ComplexText.FractionChars | sxprlib.py:1240-1245 | `str(Fraction(a, b))` consists of digits, signs and one slash |
| ComplexText.FractionForm | sxprlib.py:1240-1245 | `str(Fraction(a, b))` is the digits of a, with its sign, a slash and the digits of b |
| ComplexText.SlashedIsNoOtherNumber | sxprlib.py:1188-1239 | such a text matches neither the integer, the float, nor any `#` pattern |
| ComplexText.SlashedIsFraction | sxprlib.py:1240 | such a text matches the fraction pattern, split at its slash |
| ComplexText.FractionToken | sxprlib.py:1240-1245 | a text that only the fraction pattern matches reads as its Fraction when fractions are enabled |
| ComplexText.FractionTextValue | sxprlib.py:1241-1245 | the text `a/b` matches the fraction pattern and has the value a/b, reduced |
| ComplexText.FractionText | sxprlib.py:1240-1245 | `str(Fraction(a, b))` reads back, with fractions enabled, as the Fraction a/b |
| ComplexText.PartText | sxprlib.py:1183-1187 | the text of an int or a Fraction is not empty and holds no delimiter |
| ComplexText.PartReadsBack | sxprlib.py:1188-1245 | the text of an int or a Fraction reads back as a number of the same value when fractions are enabled |
| ComplexText.SharpCIsNoNumber | sxprlib.py:1188-1245 | `#C` is no number under any flags |
| ComplexText.SharpWord | sxprlib.py:1181-1187 | before `(`, the bare word starting with `#C` is `#C` |
| ComplexText.SharpBare | sxprlib.py:1248-1264 | `#C` before `(` is the complex prefix when complex literals are enabled |
| ComplexText.HeadScan | sxprlib.py:1081-1264 | the tokenizer reads `#C(` as the complex prefix, stopping before `(` |
| ComplexText.ParenScan | sxprlib.py:1119-1122 | `(` and `)` are tokens of one character |
| ComplexText.BareStart | sxprlib.py:1181-1187 | a digit, `-` or `/` begins a bare token read up to the next delimiter |
| ComplexText.WordRun | sxprlib.py:1183-1187 | the bare-token loop stops exactly at the first delimiter or the end |
| ComplexText.WordIs | sxprlib.py:1181-1187 | a word of number characters followed by a delimiter is read whole |
| ComplexText.NumberBare | sxprlib.py:1188-1245 | a bare token that is a number stands for that number and moves no further |
| ComplexText.PartScan | sxprlib.py:1081-1245 | the text of an exact part, followed by a delimiter, is scanned as that part's number |
| ComplexText.SpacedPartScan | sxprlib.py:1084-1086 | the same after a space |
| ComplexText.Advance | sxprlib.py:1070-1078 | with a token pending, `_next_token` hands it out and scans the next one |
| ComplexText.ComplexOpens | sxprlib.py:1070-1078 | a fresh reader over `#C(` hands out the complex prefix with `(` pending |
| ComplexText.ComplexObject | sxprlib.py:1299-1300 | after the complex prefix, the object read is the complex literal |
| ComplexText.DelimStep | sxprlib.py:1300-1309 | a pending parenthesis of a complex literal is accepted and the next token scanned |
| ComplexText.NumStep | sxprlib.py:1302-1307 | a pending number is accepted as a part and the next token scanned |
| ComplexText.ComplexBody | sxprlib.py:1300-1310 | `(re im)` after the prefix reads as the complex literal of the two parts |
| ComplexText.SharpCLayout | sxprlib.py:622 | the text `#C(re im)` has the prefix, the two parts, the space and the `)` where the reader expects them |
| ComplexText.SharpCReads | sxprlib.py:1283-1315 | such a text reads as the complex literal of the two parts |
| ComplexText.SharpCTextReadsBack | sxprlib.py:622 | `#C(re im)` with exact parts reads back as a complex literal with exact parts of the same values |
| ComplexText.ComplexTextReadsBack | ratcomplex.py:88-107 | the text `str()` gives a Complex with exact parts under sxprlib reads back as a complex literal with the same part values |
| Samples.EmptyList | sxprlib.py:1336-1339 | `()` reads as NIL |
| Samples.NothingToRead | sxprlib.py:1290-1291 | an empty text, and one holding only a comment, read as `None` |
| Samples.StrayClose | sxprlib.py:1329-1333 | a stray `)` is a SyntaxError at the position after it |
| Samples.PairScans | sxprlib.py:1119-1124 | `(a . b)` scans as `(`, `a`, `.`, `b`, `)`, then the end |
| Samples.DottedPair | sxprlib.py:1349-1359 | `(a . b)` reads as one Cons whose car is the Symbol a and whose cdr is the Symbol b |
| Samples.QuoteScans | sxprlib.py:1106-1110 | with quoting on, `'x` scans as the quote prefix, `x`, then the end |
| Samples.QuotedSymbol | sxprlib.py:1293-1294 | with quoting on, `'x` reads as `(quote x)` |
| Samples.EndInsideList | sxprlib.py:1344-1348 | the text ending inside a list is a SyntaxError at the end of the text |
| Samples.DotFirstScans | sxprlib.py:1123-1124 | `(. a)` scans as `(`, `.`, `a` |
| Samples.DotAsObject | sxprlib.py:1329-1333 | a dot where an object should start is a SyntaxError at the position after it |
| Samples.EndInsideString | sxprlib.py:1175-1178 | the text ending inside a string literal is an EOFError at the position last reported |
| Samples.EndInsideComment | sxprlib.py:1096-1101 | the text ending inside a block comment is an EOFError at the position last reported |
| Samples.TailTokens | sxprlib.py:1070-1078 | the reader's states along `(a . b c)` |
| Samples.TailNotClosed | sxprlib.py:1352-1358 | a dotted tail followed by anything but `)` is a SyntaxError at the position after that token |
| Samples.NegativeInteger | sxprlib.py:1188-1189 | `-12` is the int -12 whatever the flags are |
| Samples.HexNeedsFlag | sxprlib.py:1212 | `#x1f` is no number while the hex flag is off |
| Samples.HexWithFlag | sxprlib.py:1212-1220 | with the hex flag on, `#x1f` is the int 31 |
| Samples.RadixShapeFits | sxprlib.py:64-73 | `#3r12` matches the radix pattern and neither the integer nor the float pattern |
| Samples.RadixShapeDoesNotFit | sxprlib.py:64-73 | `#2r102` matches the radix pattern and neither the integer nor the float pattern |
| Samples.Base3Digits | sxprlib.py:1231 | `int("12", 3)` is 5 |
| Samples.Base2Digits | sxprlib.py:1231 | `int("102", 2)` fails |
| Samples.RadixPartsFit | sxprlib.py:1222-1229 | `#3r12` has base 3 and digits `12` |
| Samples.RadixPartsDoNotFit | sxprlib.py:1222-1229 | `#2r102` has base 2 and digits `102` |
| Samples.RadixFits | sxprlib.py:1229-1231 | `#3r12` is the int 5 |
| Samples.RadixDoesNotFit | sxprlib.py:1237-1238 | `#2r102` holds a digit too large for base 2, so it is the Symbol `#2r102` |
| Samples.RadixTokens | sxprlib.py:1221-1239 | with the radix flag on, `#3r12` reads as a number and `#2r102` as a Symbol |
| Samples.FractionShape | sxprlib.py:64-74 | `4/2` matches the fraction pattern and neither the integer nor the float pattern |
| Samples.WholeFraction | sxprlib.py:1240-1243 | with fractions on, `4/2` is the int 2 |

## Left out

- File input, `SxprFileReader`, `sxopen` and the stdout writer of `sxpprint`: these are I/O. The reader reads from a text, and `sxpprint` writes to a `Sink` that collects the text.
- Floats are kept as the text of their token, and their value is the exact decimal the text denotes. Binary rounding, `float()`, Python's float `repr`, and the Complex operations that produce floats (`__truediv__`, `__abs__`, `__pow__`, `__complex__`, `__hash__`) are not modelled. The exact arithmetic of `RatComplex` requires exact operands.
- East Asian width is the parameter `wide` of `Lexer.Input`, a function from characters to booleans. `unicodedata` is a foreign library, so the character classes are not spelled out. The concrete readings in `Samples` use a `wide` that is false everywhere.
- Character classes and case mapping are ASCII only. `lower()`, `upper()` and `capitalize()` on letters outside ASCII are not modelled.
- The intern tables are plain maps. The eviction of unreferenced objects from a `WeakValueDictionary`, and `listall()`, depend on the garbage collector and are left out.
- The tokenizer in the model returns descriptions of tokens. The reader makes the Symbol, Char, String and Array objects when it consumes a token. Python makes them one token earlier, when it scans the lookahead. Only `listall()` could tell the two apart.
- `Intern.Registry.MakeSymbol`, `Intern.Registry.MakeChar`: only a text argument is modelled, not a `Symbol`, `Char` or `String` object or `str()` of another value.
- Python's recursion limit is not modelled. The reader and the printers recurse without bound, and where Python recurses forever the printing functions return `None`.
- Lone surrogate code points: Python keeps them in a `str`, but a Dafny `char` cannot hold them. A `#\x` form, an escape or a code that names one gives the error `Unrepresentable`.
- The state of the streamer after an exception is not specified beyond the error itself. The intern tables are stated only to keep every entry they had; the entries a failed read may have added are not listed.
- The attribute guards (`_ReadOnlyClassVarMeta`, the `PermissionError` checks of `__setattr__` and `__delattr__`) are left out. Symbols, Chars, Strings and Complex numbers have constant fields instead.
- `__repr__` is modelled only as far as `Cons.__eq__` needs it: a sequence of pieces, not their exact characters.
- `sx2py`, `py2sx`, the one-line type predicates and `mkcons` are left out. The first two convert to and from Python containers keyed by `id()`; the others are trivial.
- Index arguments that are slices (`NotImplementedError`) are left out.
- `Complex.__repr__` is left out. `Complex.__str__` is `RatComplex.ToString`.
- `Complex` objects made by the arithmetic operators: `__reduce_comp` constructs them through `Complex(...)` and so interns them. The model returns their parts as a `RatComplex.Reduced` value and does not pass them through the table.
- `Reader.ReadList`: the dot branch of the source's loop is a separate method, `Reader.CloseList`, which handles all three ways the loop ends: `)`, the end of the text and a dotted tail.
- `Reader.ReadObj`, `Reader.ReadList`, `Reader.SxParse`: the objects a read makes are stated to be disjoint from a caller-given set of objects `avoid`, rather than to be freshly allocated. Any object the caller already holds can be put in that set.
- `Lexer.Scan` and the other tokenizer functions state progress and well-formedness in their own contracts. Their full behaviour is what the `Streaming.Streamer` methods are proved equal to; lemmas such as `Lexer.BlockCommentEnd`, `Lexer.PlainString`, `Lexer.BlankScan` and those in `ComplexText` state it for whole classes of texts, and `Samples` pins down concrete readings.
- `Lexer.BlankScan`, `Reader.NothingButBlanks`, `Reader.UnclosedList`: the blank rest of a text is whitespace and line comments; a block comment in that rest is not covered by these lemmas.
- `Lexer.PlainString` covers string literals with escapes disabled; with escapes enabled, `Lexer.UnterminatedString` states only the failure when no `"` lies ahead, since an escaped `\"` does not close the literal.
- `ComplexText.SharpCTextReadsBack`, `ComplexText.ComplexTextReadsBack`: the read-back is stated for exact parts, with complex literals and fractions enabled. A float part's text is that of Python's float `repr`, which is not modelled; without the fraction flag a Fraction's text reads as a Symbol, and the reader then rejects the literal.
