# A verified model of the toy template compiler's front half

`template.py` is a small template engine organised like a compiler. A template such as
`You are {% if age >= 18 %}old enough{% else %}not old enough{% endif %}!` goes through three
steps:

- **tokenize** cuts the template into text, expression (`{{ … }}`) and statement (`{% … %}`)
  tokens;
- **parse** turns that flat token list into nested tuples and lists, with `if … else … endif`
  and `for … endfor` blocks as subtrees;
- **eval** would render the tree.

This project models the first two steps in Dafny and proves what they compute:

- the lexer driven by `TOKEN_REGEX`;
- the classifiers `is_expr` and `is_stmt`;
- the depth-counting scans `find_next_else` and `find_next_endif`;
- `parse`, with its helpers `parse_expr`, `unpack_len_one_list` and `parse_stmt`.

The files:

- `results.dfy` (module `Results`): `Option`, `Result`, and the `Error` values that stand for
  Python's exceptions.
- `text.dfy` (module `Text`): the ASCII `str.split()`, `" ".join`, `str.lower()` and
  `str.isdigit()`, with their laws.
- `lexer.dfy` (module `Lexer`): a hand-written scanner for exactly the pattern
  `({{.*?}}|{%.*?%})`, `re.split` with its captured group, and the filter of empty pieces.
  It proves the round trips in both directions.
- `markers.dfy` (module `Markers`): `is_expr`, `is_stmt`, and the two scans as methods with the
  source's loop and counter. Each method is proved equal to a recursive specification
  function. What that function computes is characterised by depth, with no scan:
  - for the `else` scan: the first `else` at which the `if`s counted do not outnumber the
    `endif`s;
  - for the `endif` scan: the first `endif` at which the `endif`s outnumber the `if`s by one.
- `parser.dfy` (module `Parser`): the value datatype `Node`, Python slicing, `parse_expr`,
  `unpack_len_one_list`, and `parse`/`parse_stmt` as methods. Each method is proved equal to
  the specification functions `Parsed`/`StmtParsed`, and lemmas state every outcome of
  `parse_stmt`, including the failures.
- `nesting.dfy` (module `Nesting`): the nesting theorem. A well-formed forest of text,
  expressions, statements, `if` blocks and `for` blocks, written out flat with the exact
  markers, parses back into exactly the nested value the forest describes. So each `if` finds
  its own `else` and `endif` through every level of nesting, and each `for` finds its own
  `endfor`.
- `examples.dfy` (module `Examples`): the doctests of `is_stmt`, `find_next_else`,
  `find_next_endif`, `tokenize` and `parse`, each proved about the model, plus examples of each
  way `parse` fails.

Python's exceptions become `Err` values:

- `IndexError` from `token.split()[1]` in `is_stmt` becomes `MissingTypeWord`;
- `IndexError` from `subtokens[0]` in `parse_stmt` becomes `EmptyStatement`;
- `ValueError` from `list.index` becomes `MarkerNotFound`.

Two Python accidents are kept as the code has them:

- A `-1` from `find_next_else` is used as a slice bound. `tokens[index+1:-1]` then drops the
  last token, and the model's `PySlice` reads negative and out-of-range bounds exactly as Python
  does.
- `token[2:-2]` never fails on a short token.

Neither is turned into a failure: the model does what the code does.

## Model

| member | source | states |
|---|---|---|
| Lexer.MatchAt | template.py:14-18 | a match of the pattern starts with `{{` or `{%` and is at least four characters long |
| Lexer.CloseFrom | template.py:18 | a match found by the lazy `.*?` lies inside the text and ends with the closing pair |
| Lexer.CloseFromFirst | template.py:18 | the closing pair that ends the match is its first occurrence after the opener, and no line feed comes before it |
| Lexer.CloseFromNone | template.py:18 | when there is no match, every later closing pair has a line feed before it, which Python's `.` cannot cross |
| Lexer.Tokenize | template.py:97-151 | no token is empty; the tokens put back together are the template; every token is either a single tag or a text in which the pattern matches nowhere; two texts are never adjacent; each tag is the match the pattern finds at that token's own offset of the template, and no match of the whole template starts inside a text |
| Lexer.Split | template.py:145 | `TOKEN_REGEX.split`: the leftmost search moves one character at a time; at a match it emits the text before it and the captured tag and resumes right after the tag; at the end it emits the remaining text. Its contract: the pieces are odd in number, one more text than tags |
| Lexer.SplitLocated | template.py:145 | `re.split` puts each captured tag where the leftmost search of the whole template matched it, and the texts cover only offsets where no match starts |
| Lexer.DropEmptyLocated | template.py:147-149 | dropping the empty pieces leaves every remaining token at its offset of the template |
| Lexer.SplitConcat | template.py:145 | the pieces of `TOKEN_REGEX.split` put back together are the text |
| Lexer.SplitAlternates | template.py:145 | the split alternates between tag-free texts and single tags, starting and ending with a text |
| Lexer.DropEmptyAlternating | template.py:147-149 | filtering the empty pieces of an alternating split keeps the text, keeps each token a tag or a tag-free text, and never puts two texts side by side |
| Lexer.DropEmpty | template.py:149 | every kept piece is non-empty and comes from the input |
| Lexer.TokenizeOfPieces | template.py:97-151 | the converse round trip: tokenizing brace-free texts and tags written one after another gives back exactly the non-empty pieces |
| Lexer.TagIsNotTagFree | template.py:18 | a tag is never empty and never tag-free; a non-empty tag-free text is not a tag |
| Lexer.CloseFromWindow | template.py:18 | the closer search gives the same answer inside a window of the text as in the whole text |
| Lexer.MatchAtWindow | template.py:18 | a match found inside a window is the match in the whole text, and conversely for a match that fits in the window |
| Lexer.SplitFirstTag | template.py:145 | a brace-free text followed by a tag splits into that text, that tag, and the split of the rest |
| Lexer.SkipBraceFree | template.py:18 | the leftmost search passes over positions that hold no `{` |
| Text.WordsAreWords | template.py:38 | every piece of `str.split()` is non-empty and holds no whitespace |
| Text.Words | template.py:38 | `str.split()` with no argument: skips runs of whitespace and emits each maximal run of non-whitespace characters, in order; used by `is_stmt` (line 38), `parse_expr` (line 203) and `parse_stmt` (line 222) |
| Text.Lower | template.py:38 | `str.lower()` on ASCII: maps `A`–`Z` to `a`–`z` one character at a time and keeps every other character; its contract keeps the length |
| Text.IsDigits | template.py:206 | `str.isdigit()` on ASCII: true exactly for a non-empty string of `0`–`9` |
| Text.DigitsValue | template.py:207 | `int(w)` for decimal digits, read left to right as `10 * value + digit`; its contract: a string of digits denotes a number from 0 up to but excluding `10^|w|` |
| Text.WordsOfJoin | template.py:225 | splitting words joined by single spaces gives back the words |
| Text.WordsOfJoinThen | template.py:225 | the same with a whitespace-led tail after the joined words |
| Text.WordsOfLower | template.py:38 | lower-casing commutes with `str.split()` |
| Text.LowerOfLower | template.py:38 | `lower()` leaves a string without capitals unchanged |
| Text.WordEnd | template.py:38 | the end of a word is the first whitespace after it or the end of the string |
| Markers.IsStmt | template.py:24-40 | false for a token not starting with `{%`; without a type, true exactly for tokens starting with `{%`; with a type, fails exactly when the statement token has fewer than two words, and is true only when the second word equals the type ignoring case |
| Markers.IsExpr | template.py:21-22 | `is_expr`: the token starts with the two characters `{{`, and a shorter token never does |
| Markers.TagIsExprOrStmt | template.py:21-22 | `is_expr` (`startswith("{{")`) and `is_stmt` without a type (`startswith("{%")`) split the tags of `TOKEN_REGEX` in two: each tag is exactly one of them, and ends with `}}` or `%}` to match |
| Markers.FindNextElse | template.py:42-66 | the loop returns what `NextElse` specifies: an `else` with no more `if`s than `endif`s counted before it, and no such `else` earlier; otherwise -1 |
| Markers.FindNextEndif | template.py:68-94 | the loop, with its `continue`, returns what `NextEndif` specifies: the first `endif` at which the `endif`s outnumber the `if`s by one; otherwise -1 |
| Markers.NextElse | template.py:58-66 | the result is -1 or a position at or after `index` |
| Markers.NextEndif | template.py:84-94 | the result is -1 or a position at or after `index` |
| Markers.NextElseFrom | template.py:58-66 | one turn of the `find_next_else` loop per token: `if` adds one to the counter, `endif` takes one away, and an `else` with the counter at most 0 is the answer; the IndexError of `is_stmt` stops the scan; past the end the answer is -1. Its contract: an answer is -1 or a position at or after the start |
| Markers.NextEndifFrom | template.py:84-94 | one turn of the `find_next_endif` loop: `if` adds one; an `endif` that brings the counter to 0 is skipped by `continue`, otherwise it takes one away and is the answer when the counter is then at most 0; past the end the answer is -1. Its contract: an answer is -1 or a position at or after the start |
| Markers.NextElseMeaning | template.py:58-66 | characterises the `else` scan without the scan, by depth: a found position is the first `else` target and every token before it is well-formed; -1 means there is no target; an error means a malformed statement token comes before any target |
| Markers.NextEndifMeaning | template.py:84-94 | the same characterisation for the `endif` scan: the endifs of nested ifs are skipped, and the target is the first `endif` where the depth reaches -1 |
| Markers.NextElseFromMeaning | template.py:58-66 | the inductive form of `NextElseMeaning` from any point of the scan |
| Markers.NextEndifFromMeaning | template.py:84-94 | the inductive form of `NextEndifMeaning` from any point of the scan |
| Markers.ElseScanOfKinds | template.py:58-66 | the `else` scan depends on the tokens only through what each token is to it (`if`, `else`, `endif`, other, malformed) |
| Markers.EndifScanOfKinds | template.py:84-94 | the same for the `endif` scan |
| Markers.ElseMarkerIsElse | template.py:60-64 | the exact `{% else %}` marker is an `else` to the scans and neither an `if` nor an `endif` |
| Markers.EndifMarkerIsEndif | template.py:86-92 | the exact `{% endif %}` marker is an `endif` to the scans and neither an `if` nor an `else` |
| Markers.EndforMarkerIsNeutral | template.py:58-94 | the exact `{% endfor %}` marker is passed over by both scans |
| Markers.IfMarkerIsOnlyIf | template.py:60-63 | a token counted as an `if` is counted as nothing else |
| Markers.KindOf | template.py:60-64 | a token is malformed to the scans exactly when `is_stmt` fails on it, and an `if` exactly when `is_stmt(token, "if")` holds |
| Markers.TypeWord | template.py:38 | `is_stmt` on a statement token compares its second word, lower-cased, to the lower-cased type |
| Parser.SliceBound | template.py:229 | a Python slice bound: a bound in `0..n` is kept, a larger one becomes `n`, a negative one counts from the end, and one still below zero becomes 0 |
| Parser.PySlice | template.py:229-241 | `s[lo:hi]` is the plain subsequence for in-range bounds, empty when `0 <= hi <= lo`, and for a negative `hi` the subsequence from `lo` up to `|s| + hi`, so `s[lo:-1]` drops the last element |
| Parser.Strip | template.py:253-257 | `token[2:-2]` is four characters shorter than a token of four or more characters, and empty for a shorter one |
| Parser.StripMeaning | template.py:253-257 | a marker is its two opening characters, its interior and its two closing characters |
| Parser.MakeInt | template.py:204-208 | a word becomes an int exactly when it is all decimal digits, and then it is the number the digits spell; any other word stays as it is |
| Parser.ParseExpr | template.py:202-210 | an expression always becomes a tuple |
| Parser.ParseExprMeaning | template.py:202-210 | the tuple has one element per whitespace-separated word, in order, each digit word as its int |
| Parser.Unpack | template.py:212-219 | a one-element list stands for its element, an empty list for `""`, a longer one for itself |
| Parser.IndexOf | template.py:227-240 | a found position lies at or after the start and holds the marker |
| Parser.IndexOfMeaning | template.py:227-240 | `list.index` finds the first occurrence, and fails exactly when the marker does not occur |
| Parser.IndexOfFirst | template.py:227-240 | the first occurrence is the one found |
| Parser.StmtParsed | template.py:221-246 | a statement that parses ends at or after its own position and inside the token list, so `parse` always moves forward |
| Parser.Parsed | template.py:248-264 | `parse(tokens)` from the cursor on: an expression token adds `parse_expr` of its interior, a statement token adds the node of `parse_stmt` and resumes after the last token that statement used, any other token is added as it is; the first failure of `parse_stmt` is the result |
| Parser.IfStmt | template.py:224-231 | the `if` branch of `parse_stmt` up to the consequence: no exact `{% else %}` from the cursor on is the ValueError of `list.index`; then the `else` scan from the next token, and the consequence parsed from `tokens[index+1:next_else]` with Python slicing. Its contract: the position it returns is at or after the cursor and inside the tokens |
| Parser.IfAlt | template.py:232-238 | the rest of the `if` branch: no exact `{% endif %}` is the ValueError; then the `endif` scan, the alternative parsed from `tokens[next_else+1:next_endif]`, and the node `("if", condition, consequence, alternative)` ending at the `endif`. Its contract: the position is at or after the cursor and inside the tokens |
| Parser.ForStmt | template.py:239-245 | the `for` branch of `parse_stmt`: the first exact `{% endfor %}` from the cursor on ends the body (its absence is the ValueError), the body is parsed from the slice between, and the node is `("for", [words...], body)`. Its contract: the position is at or after the cursor and inside the tokens |
| Parser.Parse | template.py:153-264 | the loop with its cursor computes `Parsed(tokens, 0)` |
| Parser.ParseStmt | template.py:221-246 | `parse_stmt` computes `StmtParsed` |
| Parser.ParseIf | template.py:224-231 | the `if` branch up to the consequence computes `IfStmt` |
| Parser.ParseIfAlt | template.py:232-238 | the rest of the `if` branch computes `IfAlt` |
| Parser.ParseFor | template.py:239-245 | the `for` branch computes `ForStmt` |
| Parser.IfStmtParsed | template.py:224-238 | with both markers present, the scans at `e` and `f`, and both branches parsed, the `if` ends at `f` as `("if", condition, consequence, alternative)` |
| Parser.IfBlockStmt | template.py:224-238 | the same from the markers at `e` and `f`: the branches are the tokens strictly between the `if` and the `else`, and between the `else` and the `endif` |
| Parser.ForBlockStmt | template.py:239-245 | a `for` whose first exact `endfor` is at `g` ends at `g` as `("for", [words…], body)`, the body being the tokens strictly between them |
| Parser.SimpleStmt | template.py:246 | any other statement becomes `(name, (words…))` and ends where it starts |
| Parser.IfConditionParsed | template.py:225-226 | parsing the one-token list `["{{" + words + "}}"]` gives the expression over the words, and unpacking takes it out of the list |
| Parser.IfConditionWords | template.py:225 | re-joining the words after `if` loses nothing: the condition is the tuple of exactly those words |
| Parser.ExprStep | template.py:251-254 | an expression token contributes the tuple of its interior's words |
| Parser.TextStep | template.py:260-261 | a text token is copied unchanged |
| Parser.StmtUnfold | template.py:255-259 | a statement token contributes its tree, and parsing resumes after its last token |
| Parser.StmtFails | template.py:255-259 | a statement that `parse_stmt` rejects makes `parse` fail with the same error |
| Parser.EmptyStatementFails | template.py:222-223 | a statement token with no word inside fails at `subtokens[0]` |
| Parser.MissingElseFails | template.py:227 | an `if` with no exact `{% else %}` at or after it fails with `MarkerNotFound` |
| Parser.MissingEndifFails | template.py:232 | an `if` with no exact `{% endif %}` at or after it fails with `MarkerNotFound` |
| Parser.EndlessLoopFails | template.py:233-237 | an `if` whose markers exist and whose branches parse, but whose `endif` scan returns -1, is reported as an endless loop |
| Parser.MissingEndforFails | template.py:240 | a `for` with no exact `{% endfor %}` at or after it fails with `MarkerNotFound` |
| Parser.PrependTwice | template.py:254-261 | appending to the parsed list in two steps is appending once |
| Parser.Advance | template.py:248-262 | one turn of the loop extends the nodes parsed so far by the token's node and moves the cursor to the next token |
| Nesting.ParseOfFlattened | template.py:153-264 | the nesting theorem: a well-formed forest written out flat parses into the value the forest describes |
| Nesting.ParseFlattened | template.py:248-264 | the nesting theorem from any position: the remaining tokens of a flattened forest parse into its value |
| Nesting.NodeParsed | template.py:249-262 | one node of a well-formed forest parses into its value, and parsing resumes right after it |
| Nesting.IfBlockFacts | template.py:227-234 | inside a flattened `if` block, both scans from after the `if` stop at the block's own `else` and `endif`, and the two slices are exactly the flattened branches |
| Nesting.IfBlockScans | template.py:228-233 | the `else` and `endif` scans from after a block's `if` skip every nested block and stop at the block's own markers |
| Nesting.IfKindsScans | template.py:58-94 | the same, read over token kinds |
| Nesting.ForBlockFacts | template.py:239-241 | inside a flattened `for` block, the first exact `endfor` is the block's own, and the body slice is the flattened body |
| Nesting.ElseSkips | template.py:58-66 | the `else` scan passes over a whole well-formed forest without changing its count |
| Nesting.ElseSkipsOne | template.py:58-66 | the same over one node |
| Nesting.EndifSkips | template.py:84-94 | the `endif` scan passes over a whole well-formed forest without changing its count |
| Nesting.EndifSkipsOne | template.py:84-94 | the same over one node |
| Nesting.KindsOfFlatten | template.py:58-94 | the kinds of a flattened forest follow the forest's shape |
| Nesting.IfNodeStmt | template.py:224-238 | `parse_stmt` on a flattened `if` block gives the block's expected node and ends at its `endif` |
| Nesting.ForNodeStmt | template.py:239-245 | `parse_stmt` on a flattened `for` block gives the block's expected node and ends at its `endfor` |
| Nesting.IfBlockParsed | template.py:255-262 | `parse` contributes a flattened `if` block's node and resumes after its `endif` |
| Nesting.ForBlockParsed | template.py:255-262 | `parse` contributes a flattened `for` block's node and resumes after its `endfor` |
| Nesting.StmtNodeParsed | template.py:246-262 | `parse` contributes a simple statement's node and resumes at the next token |
| Examples.IsStmtExamples | template.py:28-32 | `is_stmt("{% if %}", "if")` holds and `is_stmt("{{ if %}", "if")` does not |
| Examples.LongElseScan | template.py:44-48 | `find_next_else` on the long nested list from position 1 is 9 |
| Examples.NestedScans | template.py:49-51 | `find_next_else` is 5 and `find_next_endif` is 6 on the two-level list |
| Examples.SimpleScans | template.py:53-56 | the straightforward case: `find_next_else` is 2 and `find_next_endif` is 3 |
| Examples.LongEndifScan | template.py:70-74 | `find_next_endif` on the long nested list from position 1 is 10 |
| Examples.FaultyScans | template.py:38 | both scans fail on a statement token with only one word |
| Examples.SplitKeepsEmpty | template.py:109-111 | the split keeps an empty text before a leading tag and after a trailing one |
| Examples.TokenizeDropsEmpty | template.py:109-111 | `tokenize` drops those empty texts |
| Examples.TokenizeEmpty | template.py:113-114 | `tokenize("")` is `[]` |
| Examples.TokenizeHello | template.py:117-118 | simple interpolation gives three tokens |
| Examples.TokenizeName | template.py:119-120 | a lone expression is one token |
| Examples.SplitIfElse | template.py:106-107 | the pattern's split of the conditional template gives its seven pieces |
| Examples.TokenizeIfElse | template.py:123-124 | `tokenize` of the conditional template gives its seven tokens |
| Examples.TokenizeEmptyElse | template.py:125-126 | an empty `else` branch leaves no empty token |
| Examples.TokenizeCalc | template.py:129-130 | the calculation template gives its three tokens |
| Examples.TokenizeLoop | template.py:133-134 | the loop template gives its six tokens |
| Examples.TokenizeCombined | template.py:137-139 | the combined template gives its eleven tokens, with no empty token between adjacent tags |
| Examples.TokenizeNestedOpener | template.py:18 | a `{{ }}` written inside `{% %}` does not split it: the leftmost match starts at `{%` and the lazy `.*?` runs to the first `%}`, so `{%{{a}}%}` is one token |
| Examples.TokenizeThirteen | template.py:97-151 | seven brace-free texts separated by six tags tokenize to the tags and the non-empty texts, in order |
| Examples.ParseEmpty | template.py:158-159 | `parse([])` is `[]` |
| Examples.ParseHello | template.py:161-163 | flat tokens stay flat, and the expression becomes `("Name",)` |
| Examples.ParseCalc | template.py:165-167 | the calculation becomes `(12, "-", "apple_count")` |
| Examples.ParseIfElse | template.py:169-171 | the conditional becomes `("if", ("age", ">=", 18), "old enough", "not old enough")` |
| Examples.ParseEmptyElse | template.py:172-173 | an empty alternative becomes `""` |
| Examples.ParseLoop | template.py:175-177 | the loop becomes `("for", ["friend", "in", "friends"], [("friend",), ","])` |
| Examples.ParseCombined | template.py:179-181 | a loop nested inside a consequence |
| Examples.ParseNested | template.py:183-185 | an `if` nested inside an `if` |
| Examples.ParseSuperman | template.py:186-188 | an `if` in a `for` in an `if` |
| Examples.ParseExtends | template.py:190-192 | a statement that opens no block becomes `("extends", ("base.tmpl",))` |
| Examples.ParseEmptyStatement | template.py:222-223 | `parse(["{% %}"])` fails at `subtokens[0]` |
| Examples.ParseMissingElse | template.py:227 | an `if` with an `endif` but no `else` fails at `list.index` |
| Examples.ParseEndless | template.py:233-237 | an outer `if` with no `endif` of its own, around an inner complete `if`, passes both `list.index` checks, but its `endif` scan returns -1 |

## Left out

- `eval_` and the `Template` class are not part of this model. `eval_` renders nothing: it returns the Python representation of its argument. The class reads a file and chains the three steps.
- The doctest runner at the end of the file is left out.
- Text is modelled as ASCII only. `str.split()` splits on the ASCII whitespace that Python recognises, `lower()` maps `A`–`Z`, and `isdigit()` accepts `0`–`9`. Unicode whitespace, case mappings and digits are not modelled.
- The lexer models this one pattern, `({{.*?}}|{%.*?%})` with its single capturing group, and not regular expressions in general.
- Parser.EndlessLoopFails: when `find_next_endif` returns -1 inside an `if` block, the source sets the cursor to -1. The loop's `index += 1` then restarts `parse` at the first token, and the program never terminates. The model reports this case as `EndlessLoop` instead. The alternative is still parsed first, as in the source.
- Nesting.ParseOfFlattened: the well-formedness it assumes requires that a `for` body holds no exact `{% endfor %}`. `parse` takes the first exact `endfor` as the end of the loop and has no depth count for `for`, so nested `for` loops are outside the theorem. The model of `parse` itself handles such templates as the source does.
- Nesting.ParseOfFlattened: each `if` block of a forest is written out with its own exact `{% else %}`, so an `if` block without an `else` branch of its own is outside the theorem.
- Nesting.ParseOfFlattened: the `if` token of a block must be an `if` to the scans as well as to `parse`, that is its second whitespace-separated word must be `if`. `{%if x%}` opens an `if` for `parse_stmt`, which reads the first word of the interior, but not for `is_stmt`, so it is outside the theorem.
- Nesting.ParseOfFlattened: every statement token and every `for` token must have a second whitespace-separated word, so that `is_stmt(token, type_)` does not raise on it. `{%extends%}` is outside the theorem, even at top level where `parse` alone accepts it, because the theorem is stated once for both levels.
- The kinds of tokens (`Markers.Kind`) and the well-formed forests (`Nesting.Tree`) are proof devices over the model. They have no counterpart in the source.
- Lexer.DropEmpty: its own contract says only that the kept pieces are non-empty and come from the input. That order and content are kept is stated by `Lexer.DropEmptyAlternating` and `Lexer.Tokenize`.
