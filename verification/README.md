# Verified models of three nginx modules

The project models three components of this repository in Dafny and proves what they promise. Each
component has a specification in terms of values (a machine that reads byte by byte, a sequence of
headers, a sequence of commands), the code itself in its imperative form, proved to compute that
specification, and theorems about the specification.

`dafny verify dfyconfig.toml` checks everything.

## mod_minify: streaming minifiers

CSS, JavaScript and HTML are minified in place, buffer by buffer. `MinifyContext` is the context of
`ngx_http_minify_filter_module.h` as a class; its contracts describe it as one value: the stack, the
unread bytes, the written bytes, the carry and the registers. `CssMinify`, `JsMinify` and
`HtmlMinify` are the nested loops; every `case` is a small method. `CssMachine`, `JsMachine` and
`HtmlMachine` say what the loops compute, `BodyFilter` is the loop over the chain that puts the carry
in front of the next buffer.

Source and destination may be one array or two: the contracts of the three `StripBuffer` methods
mention only the bytes that the source had before, so minifying in place gives what minifying into a
separate array gives.

`Reference` is a lexer of tokens: plain bytes, pairs after a slash, strings and comments. The rules are
the code's own. `/x` is taken as a pair, in JavaScript `[` opens a string that `]` closes, regular
expressions are unknown, and quotes in a skipped comment mean nothing. They approximate the comments of
section 4.1.9 of CSS 2.1 and section 7.4 of ECMA-262 5.1. What the lexer makes of a text is well formed, spells
the text and is unique.

What becomes of each construct is stated in byte literals, from every state of the machines that it can
stand in and for whole inputs, in `CssExact`, `JsExact` and `HtmlExact`: which white space is dropped, what is
copied, what vanishes, and what waits at the end of a buffer. `StripExact` has the same for mod_strip and
`HeadersExact` for header names.

Where the code is not as uniform as a reader may expect:

- CSS: a comment in a brace block leaves `nochange_pre` set for the rest of the block, and so does a
  buffer boundary in a string in a block. Then `pre_char` is stale. So the output can depend on the
  buffer boundaries, and minifying twice can differ from minifying once. `CssCuts` and `CssTwice` give
  the exact conditions.
- JavaScript: blanks at the start of every buffer are dropped, and `pre_char` forgets a line comment's
  newline at a boundary. `JsStreams.CutInvisible` says exactly when a boundary shows. A line comment leaves
  a space whatever is before it, and a comment behind a string makes `pre_char` the end of the string. So
  minifying twice can differ from minifying once, and can even join two lines; `JsTwice` gives the exact
  condition. Without comments it cannot.
- HTML: near the end of a buffer the branches for a mismatch drop or copy one byte, or give up, where
  the branches elsewhere take three, four or nine bytes. A run in which that happens is said to falter:
  in a conditional comment at a `]`, in a comment at a `-`, in a CDATA section at a `]`, at a `<![`, each
  time with less in sight than the comparison needs and already a mismatch. `HtmlCuts` proves that the
  boundary shows exactly then. `HtmlPlain` proves that inputs without `<!-` and `<![` never falter; a
  DOCTYPE is no obstacle.
- HTML: a mismatch with `-->`, `]-->` or `]]>` that begins like the mark is taken in the whole length of the
  mark, and no byte of it is looked at again. So `<!--a--->` is not ended. `HtmlMarks` says exactly which
  texts their mark ends.
- HTML: in a skipped block a `<` and the byte behind it are taken as a pair, so `<</pre>` does not end a `pre`
  block. The closing tag is compared over the length of the remembered name only. `HtmlBlocks` says exactly
  which `>` ends a block, and follows it from the `>` that opens it over all boundaries. The empty tag `</>`
  ends a block too, but the name stays remembered: then the next closing tag, until an opening tag comes, is
  read as if it stood in the block, and may begin a new one. `HtmlNames` has when that happens.

`HtmlReference` is a lexer for whole HTML texts by these rules: comments, conditional comments, CDATA
sections, tags and the content of skipped blocks, found by searching, without buffers, registers or moves. It
spells the text, and says of every byte whether it is kept, and whether it is soft: white space of the text,
and spaces of tags, except the one behind the tag name and those behind a slash. `HtmlRegions` and
`HtmlLexing` prove that the machine keeps just that, over all buffers, unless it falters.

## mod_strip: a one-pass machine

`StripMachine` is the 37-state machine and its loop with two pointers into one array; `StripStreams`
has what holds over whole streams. The missing `break` at lines 319-322 and the assignment in the
condition at line 351 are modelled as they are; the first makes the second unreachable. Three dashes
lead back to the comment state, so `--->` does not end a comment.

## mod_headers_more: header lists and configuration

`HeaderList` is nginx's list of array slices with the removal that the module adds, `HeaderSlices` the
same without the heap, `HeaderRuns` all interleavings of removals and pushes. `ngx_list_push` is not
part of the repository; it is written after nginx's own. `HeaderTexts` gives the headers that a list
holds, `InputHeaders` the retry loop on request headers, `OutputHeaders` the pass over response headers
and the command loop, `ConfMerge` the merge of location configurations. Names are compared without
case (section 3.2 of RFC 7230).

Removal of the only header of the head part returns an error after it has changed the part, and the
caller reports success. The model keeps that: `InputHeaders` says exactly which calls end
there, what they leave, and when a push is still safe then; later calls are specified on such lists too.
A pointer to a builtin header then leads to a cell outside the list, and what is set through it is not
seen.

The pass over response headers leaves the pointer of a builtin header at the last header that matches,
while the first one holds the value. So a second call, through the pointer, replaces the first exactly
if no two headers matched (`OutputHeaders.BuiltinTwice`).

Memory allocation always succeeds.

## Model

| member | source | states |
|---|---|---|
| MinifyContext.Context.constructor | modules/mod_minify/ngx_http_minify_filter_module.c:184-189 | A new context is zeroed: the text state alone on the stack, nothing written, nothing carried |
| MinifyContext.Context.PushState | modules/mod_minify/ngx_http_minify_filter_module.h:112 | A push stays within the eight slots and puts the state on top; nothing else of the context changes |
| MinifyContext.Context.PopState | modules/mod_minify/ngx_http_minify_filter_module.h:113 | A pop leaves the states below as they are |
| MinifyContext.Context.SetState | modules/mod_minify/ngx_http_minify_filter_module.h:116 | The stack becomes the one state |
| MinifyContext.Context.IncRpos | modules/mod_minify/ngx_http_minify_filter_module.h:148-153 | One unread byte is skipped |
| MinifyContext.Context.CopyChar | modules/mod_minify/ngx_http_minify_filter_module.h:155-161 | One byte is written behind what has been written and one unread byte is skipped; the unread bytes behind it keep their values even when source and destination are one array |
| MinifyContext.Context.CopyRpos | modules/mod_minify/ngx_http_minify_filter_module.h:163-169 | The next unread byte is written, in place or into another array |
| MinifyContext.Context.CacheRest | modules/mod_minify/ngx_http_minify_filter_module.h:181-199 | The unread rest is remembered, and its length returned, exactly if it is, up to case, a beginning of the string asked for; otherwise the cache is as before and the result is -1 |
| MinifyContext.Context.RecordPre | modules/mod_minify/ngx_http_minify_filter_module_css.c:196-204 | `pre_char` becomes the byte written last, unless `nochange_pre` is set or nothing is written in this buffer |
| Bytes.SameNoCaseIff | modules/mod_minify/ngx_http_minify_filter_module_html.c:31-33 | Two byte strings are equal without case exactly if they differ at most in the case of ASCII letters |
| Reference.ParseSpells | modules/mod_minify/ngx_http_minify_filter_module_css.c:22-112 | The reference lexer loses nothing: the tokens and the unfinished end of a text spell the text, and each of them is well formed |
| Reference.ParseInverts | modules/mod_minify/ngx_http_minify_filter_module_css.c:22-112 | Its result is the only one: every well-formed list of tokens and unfinished end is what the lexer makes of its spelling |
| CssMinify.StripComment | modules/mod_minify/ngx_http_minify_filter_module_css.c:22-66 | The comment loop, from any context in a comment, goes the way of the byte-by-byte machine: output, stack, carry and quote are those of the machine on the bytes consumed |
| CssMinify.StripQuote | modules/mod_minify/ngx_http_minify_filter_module_css.c:70-112 | The string loop, likewise, with escapes taken as pairs |
| CssMinify.BraceTurn | modules/mod_minify/ngx_http_minify_filter_module_css.c:118-190 | One turn of the brace loop, in every branch |
| CssMinify.StripBrace | modules/mod_minify/ngx_http_minify_filter_module_css.c:116-206 | The whole brace loop, with the `pre_char` that each turn records |
| CssMinify.StripBuffer | modules/mod_minify/ngx_http_minify_filter_module_css.c:209-322 | One buffer, minified in place or into another array, equals the machine on its bytes as they were before; the stack always has one of six shapes, none deeper than three, and the `default` branches are not reached |
| CssStreams.ChunkEnters | modules/mod_minify/ngx_http_minify_filter_module.c:229-252 | A carry put in front of the next buffer comes to the same as the pending state that it was taken from |
| CssStreams.ChunksReachable | modules/mod_minify/ngx_http_minify_filter_module_css.c:196-204 | Over every chain of buffers `pre_char` is stale, or the byte written last, outside strings |
| CssStreams.Streaming | modules/mod_minify/ngx_http_minify_filter_module_css.c:22-322 | For every input and every cutting: the output is the uncommented text less its pending end, with nothing but white bytes outside strings left out, and the carry and the lexical state are those of the uncut input |
| CssStreams.TwoCuttings | modules/mod_minify/ngx_http_minify_filter_module_css.c:22-322 | Two cuttings of one input agree in all bytes that are not white space, in the carry and in the lexical state |
| CssCuts.CutInvisible | modules/mod_minify/ngx_http_minify_filter_module_css.c:298-301 | In every reachable state: a buffer boundary leaves the output of all continuations unchanged if and only if the state is not one of two: inside a string in a brace block, or right after a stale block that kept a blank |
| CssCuts.ChunkIndependence | modules/mod_minify/ngx_http_minify_filter_module_css.c:209-330 | A cutting without such a boundary gives byte for byte the output of the uncut input |
| CssCuts.PlainInputsAreChunkIndependent | modules/mod_minify/ngx_http_minify_filter_module_css.c:182-204 | In terms of the input: no comment inside a brace block and no boundary in a string in a brace block suffice |
| CssTwice.IdempotentIff | modules/mod_minify/ngx_http_minify_filter_module_css.c:115-322 | Minifying the output again changes nothing if and only if the first pass never kept a blank right after a blank |
| CssTwice.Idempotent | modules/mod_minify/ngx_http_minify_filter_module_css.c:115-322 | So it is for every input without a comment inside a brace block |
| CssTwice.TwoPassesAreEnough | modules/mod_minify/ngx_http_minify_filter_module_css.c:115-322 | For every input at all, a third pass changes nothing |
| CssTwice.NotIdempotent | modules/mod_minify/ngx_http_minify_filter_module_css.c:181-184 | The input `{/**/  }` needs two passes: after a comment in a block `nochange_pre` stays set and both blanks are kept |
| CssExact.TextIff | modules/mod_minify/ngx_http_minify_filter_module_css.c:209-322 | The machine is in the text, and in a block, exactly where the token reference is |
| CssExact.TextWhite | modules/mod_minify/ngx_http_minify_filter_module_css.c:233-241 | Outside blocks a run of white space becomes its first blank, space or tab, or nothing behind another blank; newlines and returns are never written |
| CssExact.TextWhiteByte | modules/mod_minify/ngx_http_minify_filter_module_css.c:233-241 | One white byte there, whatever the register holds, as behind a block that had a comment in it |
| CssExact.BlockWhite | modules/mod_minify/ngx_http_minify_filter_module_css.c:131-138 | In a block without a comment so far a run of white space becomes one space if it has a space and `pre_char` is none, and nothing otherwise |
| CssExact.StaleWhite | modules/mod_minify/ngx_http_minify_filter_module_css.c:131-204 | Behind a comment in a block all spaces of a run are written, or none, by the byte before the comment; tabs and line ends never are |
| CssExact.TextByte | modules/mod_minify/ngx_http_minify_filter_module_css.c:273-291 | Every other byte is written; `{` begins a block and `}` ends it, and the register with it becomes live again |
| CssExact.SlashPair | modules/mod_minify/ngx_http_minify_filter_module_css.c:243-264 | A slash that opens no comment is written with the byte behind it |
| CssExact.StringCopied | modules/mod_minify/ngx_http_minify_filter_module_css.c:70-112 | A string in either kind of quotes, escapes included, is written as it is |
| CssExact.NoteVanishes | modules/mod_minify/ngx_http_minify_filter_module_css.c:22-66 | A comment up to its first `*/` leaves nothing; in a block it freezes the register |
| CssExact.FirstBlankAlone | modules/mod_minify/ngx_http_minify_filter_module_css.c:229-287 | For every input that stands in the text outside blocks: white space behind a written byte, or at the beginning of the response, is written as its first blank alone |
| CssExact.OneSpace | modules/mod_minify/ngx_http_minify_filter_module_css.c:124-175 | For every such input and a block without slashes and quotes behind it: white space behind a written byte of the block is one space or nothing |
| CssExact.BufferBegins | modules/mod_minify/ngx_http_minify_filter_module_css.c:298-303 | At a boundary nothing but the output count is new, and a buffer that begins in a string in a block freezes the register |
| JsMinify.StripComment | modules/mod_minify/ngx_http_minify_filter_module_js.c:20-80 | Both comment loops go the way of the machine; the newline that ends a line comment becomes one space |
| JsMinify.StripQuote | modules/mod_minify/ngx_http_minify_filter_module_js.c:84-124 | The string loop, for quotes and for `[`...`]` |
| JsMinify.StripBuffer | modules/mod_minify/ngx_http_minify_filter_module_js.c:127-265 | One buffer, in place or not, equals the machine on its bytes as they were before; the stack is never deeper than two |
| JsStreams.Streaming | modules/mod_minify/ngx_http_minify_filter_module_js.c:20-265 | For every input and every cutting: the output is the uncommented text less its pending end, each line comment a space, with nothing but white bytes outside strings left out; carry and lexical state depend on the input alone |
| JsStreams.TwoCuttings | modules/mod_minify/ngx_http_minify_filter_module_js.c:20-265 | Two cuttings of one input agree in all bytes that are not white space, in the carry and in the lexical state |
| JsStreams.CutInvisible | modules/mod_minify/ngx_http_minify_filter_module_js.c:150-170 | In every state: a boundary changes the output of no continuation if and only if nothing was written in the buffer, a string or line comment is open, or `pre_char` and the last byte drop the same white space |
| JsStreams.ChunkIndependence | modules/mod_minify/ngx_http_minify_filter_module_js.c:127-265 | A cutting in which every buffer begins at such a state gives byte for byte the output of the uncut input |
| JsStreams.GoodCutsIff | modules/mod_minify/ngx_http_minify_filter_module_js.c:127-265 | Over chains, from every state: every prefix of the chain, continued by any buffer, gives the bytes of the uncut input if and only if every boundary hides |
| JsStreams.HiddenCutsDoNotShow | modules/mod_minify/ngx_http_minify_filter_module_js.c:150-170 | In terms of the input: boundaries in strings, in line comments and behind a newline that is needed to end a line do not show |
| JsTwice.IdempotentIff | modules/mod_minify/ngx_http_minify_filter_module_js.c:20-265 | Minifying the output again changes nothing if and only if the first pass never writes a white byte that the second, with its own `pre_char`, drops |
| JsTwice.Idempotent | modules/mod_minify/ngx_http_minify_filter_module_js.c:20-265 | So it is for every input without comments |
| JsTwice.TwoPassesAreEnough | modules/mod_minify/ngx_http_minify_filter_module_js.c:20-265 | For every input at all, a third pass changes nothing |
| JsTwice.NotIdempotent | modules/mod_minify/ngx_http_minify_filter_module_js.c:53-70 | The space that `//` and a newline leave is lost in the second pass |
| JsTwice.LinesJoined | modules/mod_minify/ngx_http_minify_filter_module_js.c:84-124 | In `a`, newline, an empty string, an empty comment, newline, `x`, the second pass drops the second newline |
| JsExact.TextIff | modules/mod_minify/ngx_http_minify_filter_module_js.c:147-240 | The machine is in the text exactly where the token reference is |
| JsExact.WhiteRun | modules/mod_minify/ngx_http_minify_filter_module_js.c:152-232 | From every state of the text: a run of white space is written as its first byte if that is a blank behind neither blank nor newline, and one newline if it has one, unless that comes directly behind NUL, newline, `;`, `:`, `{` or `}` |
| JsExact.TextByte | modules/mod_minify/ngx_http_minify_filter_module_js.c:147-240 | Every other byte of the text is written and decides on the white space behind it |
| JsExact.SlashPair | modules/mod_minify/ngx_http_minify_filter_module_js.c:170-199 | A slash that opens no comment is written with the byte behind it |
| JsExact.StringCopied | modules/mod_minify/ngx_http_minify_filter_module_js.c:84-124 | A string in either kind of quotes or in brackets, escapes included, is written as it is, and the register is not moved |
| JsExact.NoteVanishes | modules/mod_minify/ngx_http_minify_filter_module_js.c:20-52 | A comment up to its first `*/` leaves nothing |
| JsExact.LineBecomesSpace | modules/mod_minify/ngx_http_minify_filter_module_js.c:53-70 | A line comment with its newline becomes one space |
| JsExact.NewlineKeptIff | modules/mod_minify/ngx_http_minify_filter_module_js.c:213-227 | For every input that ends in a byte of the text: a newline behind it is written, whatever follows, if and only if the byte is not NUL, `;`, `:`, `{` or `}` |
| JsExact.FirstBlankAlone | modules/mod_minify/ngx_http_minify_filter_module_js.c:152-168 | For every such input: of a run of blanks the first alone is written |
| JsExact.BeginningsVanish | modules/mod_minify/ngx_http_minify_filter_module_js.c:151-168 | White space at the beginning of the response and behind a newline of the text is not written |
| JsExact.BufferBegins | modules/mod_minify/ngx_http_minify_filter_module_js.c:127-160 | At a boundary nothing but the output count is new |
| HtmlMachine.NextProgress | modules/mod_minify/ngx_http_minify_filter_module_html.c:219-361 | Every move of the nested machines consumes a byte or lowers the rank of the state, and looks at no byte beyond the buffer |
| HtmlMachine.RunReachable | modules/mod_minify/ngx_http_minify_filter_module_html.c:372-686 | From every reachable state a buffer ends with a (state, carry) pair of a fixed table |
| HtmlMinify.GetSkipTagname | modules/mod_minify/ngx_http_minify_filter_module_html.c:20-40 | The lookup gives 0 for `pre`, 1 for `script` and 2 for `style`, up to case, and -1 for any other name |
| HtmlMinify.StripTagName | modules/mod_minify/ngx_http_minify_filter_module_html.c:47-206 | The tag-name, attribute and closing-tag loops go the way of the machine, including the remembered names in the two caches |
| HtmlMinify.StripComment | modules/mod_minify/ngx_http_minify_filter_module_html.c:213-362 | The three comment loops go the way of the machine; the buffer is never overrun |
| HtmlMinify.StripTag | modules/mod_minify/ngx_http_minify_filter_module_html.c:372-556 | The tag loop with all machines nested in it goes the way of the machine; it terminates although several moves consume nothing, and the branch for a `<!` without a third byte is not reached |
| HtmlMinify.StripBuffer | modules/mod_minify/ngx_http_minify_filter_module_html.c:559-686 | One buffer, in place or not, equals the machine on its bytes as they were before, and is used up; the stack is never deeper than three |
| HtmlStreams.CarryInvariant | modules/mod_minify/ngx_http_minify_filter_module_html.c:223-274 | After every chain of buffers state and carry are in the table, the carry is the end of what the buffer was given, and it has at most eight bytes |
| HtmlBlocks.RunBlock | modules/mod_minify/ngx_http_minify_filter_module_html.c:637-657 | Inside a `pre`, `script` or `style` block the machine does exactly what a three-state reference does |
| HtmlBlocks.ChunkBlock | modules/mod_minify/ngx_http_minify_filter_module_html.c:637-657 | A buffer entered in such a block, also in the middle of a pair or a closing tag, gives the output of the reference up to the end of the block, and the text goes on from there |
| HtmlBlocks.EntersBlock | modules/mod_minify/ngx_http_minify_filter_module_html.c:50-181 | From every reachable state that does not skip, a move begins to skip if and only if it is the `>` of a tag named `pre`, `script` or `style`, or of a closing tag, while a name is remembered, whose text is not empty and does not begin with it |
| HtmlNames.DanglesIff | modules/mod_minify/ngx_http_minify_filter_module_html.c:159-181 | A name is left over outside a block exactly from an empty closing tag on; an opening tag forgets it |
| HtmlNames.LeftOverSince | modules/mod_minify/ngx_http_minify_filter_module_html.c:159-181 | Over every run: if a name is left over at its end, an empty closing tag has been read, and no opening tag behind it |
| HtmlNames.OnlyByTag | modules/mod_minify/ngx_http_minify_filter_module_html.c:50-181 | Where no name is left over, a block is entered if and only if the move is the `>` of an opening tag of one of the three names |
| HtmlNames.BlocksEnteredByTags | modules/mod_minify/ngx_http_minify_filter_module_html.c:559-686 | For every input without an empty closing tag and every chain: no name is left over, and every block is entered at such a `>` |
| HtmlNames.ClosingTagReenters | modules/mod_minify/ngx_http_minify_filter_module_html.c:143-181 | While a name is left over, the bytes behind a `</` of the text are read as inside the block |
| HtmlNames.EmptyTagThenClosing | modules/mod_minify/ngx_http_minify_filter_module_html.c:159-171 | The input `<pre></></b>`: the machine is in the text behind `</>` and skips again behind `</b>` |
| HtmlBlocks.ChunksInBlock | modules/mod_minify/ngx_http_minify_filter_module_html.c:637-657 | After every chain of buffers, a state that skips a block is inside one, at its text, at a pending `<` or in a closing tag |
| HtmlBlocks.BlockSurvives | modules/mod_minify/ngx_http_minify_filter_module_html.c:637-657 | For every chain of buffers entered in a block: its output begins with that of the reference on the concatenation; if the block ends, it ends in the same place and the text goes on from there, in the buffer that has the end |
| HtmlBlocks.BlockFromEntry | modules/mod_minify/ngx_http_minify_filter_module_html.c:637-657 | The same from the middle of a buffer, so from the very `>` that opens the block |
| HtmlBlocks.BlockVerbatim | modules/mod_minify/ngx_http_minify_filter_module_html.c:637-657 | Up to the first `</` a block is copied byte for byte |
| HtmlBlocks.BlockThins | modules/mod_minify/ngx_http_minify_filter_module_html.c:143-181 | A block is written with nothing left out but spaces inside a closing tag, from a `/` behind an odd number of `<` to the next `>` |
| HtmlBlocks.LeavesIff | modules/mod_minify/ngx_http_minify_filter_module_html.c:143-181 | A block ends with a byte if and only if that is the `>` of a closing tag whose text, spaces removed, is empty or begins with the remembered name; the name stays remembered exactly if it is empty |
| HtmlBlocks.InClosingIff | modules/mod_minify/ngx_http_minify_filter_module_html.c:637-657 | The bytes of a block lead into a closing tag if and only if there is a `/` behind an odd number of `<`, and no `>` since |
| HtmlBlocks.ClosingTagOverlooked | modules/mod_minify/ngx_http_minify_filter_module_html.c:644-647 | Behind one more `<` a closing tag is copied and the block goes on |
| HtmlMarks.FoundIff | modules/mod_minify/ngx_http_minify_filter_module_html.c:276-529 | For `-->`, `]-->` and `]]>`: the search finds the mark behind a text that does not contain it if and only if its steps come out at the end of the text |
| HtmlMarks.CommentEndsIff | modules/mod_minify/ngx_http_minify_filter_module_html.c:314-349 | A comment ends at its first `-->` exactly then, and leaves no trace; otherwise what follows is dropped too |
| HtmlMarks.ConditionalEndsIff | modules/mod_minify/ngx_http_minify_filter_module_html.c:276-312 | A conditional comment ends at its first `]-->` exactly then, and is copied |
| HtmlMarks.CdataEndsIff | modules/mod_minify/ngx_http_minify_filter_module_html.c:495-529 | A CDATA section ends at its first `]]>` exactly then, and is copied |
| HtmlMarks.MarksOverlooked | modules/mod_minify/ngx_http_minify_filter_module_html.c:276-529 | The inputs `<!--a--->`, `<!--[if]]-->` and `<![CDATA[x]]]>` are not ended by their marks |
| HtmlExact.TextByte | modules/mod_minify/ngx_http_minify_filter_module_html.c:579-634 | Every byte of the text but `<`, whatever the register holds: line ends and tabs are dropped, a space behind a space too, all else is written |
| HtmlExact.TextWhite | modules/mod_minify/ngx_http_minify_filter_module_html.c:583-634 | A run of white bytes of the text becomes one space if it has one, and nothing behind a space or without one |
| HtmlExact.BareTag | modules/mod_minify/ngx_http_minify_filter_module_html.c:58-102 | A tag without attributes loses the spaces before its name, and begins a block if and only if the name is `pre`, `script` or `style` in either case |
| HtmlExact.TagWithAttributes | modules/mod_minify/ngx_http_minify_filter_module_html.c:58-141 | With attributes too; of every run of spaces in them the first is kept and all else is; a `/` before the `>` takes the block back, unless it is the one that ends the name |
| HtmlExact.AttSlash | modules/mod_minify/ngx_http_minify_filter_module_html.c:119-130 | Any other slash among the attributes is copied with the byte behind it |
| HtmlExact.BlockCopied | modules/mod_minify/ngx_http_minify_filter_module_html.c:637-657 | In such a block all bytes are written up to the first `</`, whatever follows |
| HtmlExact.ClosingTag | modules/mod_minify/ngx_http_minify_filter_module_html.c:143-181 | A closing tag, of the text or behind the content of a block, loses its spaces, and ends the block if and only if it is empty or begins with the remembered name |
| HtmlExact.BlockIff | modules/mod_minify/ngx_http_minify_filter_module_html.c:20-40 | From the beginning of a response, for every name and with or without attributes: behind the three names all is copied up to the first `</`, behind any other a newline is dropped |
| HtmlExact.BangTag | modules/mod_minify/ngx_http_minify_filter_module_html.c:416-443 | `<!`, or `<!-`, and a byte that begins no comment and no section: what follows is read as a tag |
| HtmlExact.BracketCopied | modules/mod_minify/ngx_http_minify_filter_module_html.c:459-492 | `<![` with six more bytes that make no CDATA section is copied and the text goes on; with fewer, unless a section could begin, the rest of the response is copied |
| HtmlExact.ByteWaits | modules/mod_minify/ngx_http_minify_filter_module_html.c:613-618 | A `<` of the text or a block, or a `/` of a tag, that ends a buffer is carried |
| HtmlExact.OpeningWaits | modules/mod_minify/ngx_http_minify_filter_module_html.c:404-491 | A buffer that ends in the beginning of a conditional comment or a CDATA section, in either case, carries it |
| HtmlExact.ShortComment | modules/mod_minify/ngx_http_minify_filter_module_html.c:248-263 | If it ends behind `<!--` in one or two bytes that begin no conditional comment, a comment is being skipped |
| HtmlExact.MarkWaits | modules/mod_minify/ngx_http_minify_filter_module_html.c:295-348 | The beginning of an end mark at the end of a buffer is carried; where it is none its first byte is dropped, and copied in a CDATA section |
| HtmlReference.LexSpells | modules/mod_minify/ngx_http_minify_filter_module_html.c:559-686 | The lexer loses nothing: for every text tokens and undecided end spell it; skipped comments keep nothing, every other token all its bytes, and only white ones are soft |
| HtmlLexing.ReadsAsLexed | modules/mod_minify/ngx_http_minify_filter_module_html.c:213-686 | For every text on which the machine does not falter: it reads what the lexer keeps, carries the undecided end, and remembers the name that the last tag left |
| HtmlLexing.LexedChunks | modules/mod_minify/ngx_http_minify_filter_module_html.c:559-686 | And for every chain in which no buffer falters: what the buffers write together is what the lexer keeps of the whole text, with nothing left out but soft bytes |
| HtmlPlain.Streaming | modules/mod_minify/ngx_http_minify_filter_module_html.c:559-686 | For every input without `<!-` and `<![`, with or without a DOCTYPE, and every cutting: no buffer falters, and all bytes but soft ones are kept in order, counting the carry |
| HtmlPlain.TwoPlainCuttings | modules/mod_minify/ngx_http_minify_filter_module_html.c:559-686 | All cuttings of such an input agree in all bytes that are not white space, in the carry and in the lexical state |
| HtmlCuts.CutInvisible | modules/mod_minify/ngx_http_minify_filter_module_html.c:219-361 | In every state and after every run: a boundary changes neither the lexical state nor, white space apart, the output of any continuation if and only if the run does not falter; each faltering branch has an input that tells |
| HtmlCuts.GoodCutsIff | modules/mod_minify/ngx_http_minify_filter_module_html.c:213-556 | Over chains: every prefix of the chain, continued by any buffer, comes to the same as one buffer if and only if no buffer but the last falters |
| HtmlCuts.TwoCuttings | modules/mod_minify/ngx_http_minify_filter_module_html.c:559-686 | Two cuttings of one input in which no buffer but the last falters agree in all bytes that are not white space, in the carry and in the lexical state |
| HtmlCuts.BracketLost | modules/mod_minify/ngx_http_minify_filter_module_html.c:287-318 | An input on which a cutting falters: in a conditional comment a `]` near the end of a buffer is dropped |
| BodyFilter.Prepend | modules/mod_minify/ngx_http_minify_filter_module.c:230-250 | The carry goes in front of the bytes of the buffer, in a new array, and out of the context |
| BodyFilter.Process | modules/mod_minify/ngx_http_minify_filter_module_css.c:325-330 | The minifier of the file type runs in place and the buffer ends where the output ends |
| BodyFilter.Filter | modules/mod_minify/ngx_http_minify_filter_module.c:202-256 | Every buffer of the chain ends with the output that the machine gives for it in turn, whatever arrays the buffers before it got |
| BodyFilter.Respond | modules/mod_minify/ngx_http_minify_filter_module.c:184-256 | From a new context: the buffers of a CSS or JavaScript response, put together, are the uncommented text with only soft white space missing, and the cache holds the undecided byte; those of an HTML response are as `FilteredHtml` says |
| BodyFilter.FilteredText | modules/mod_minify/ngx_http_minify_filter_module.c:225-256 | The same, for every chain as a value |
| BodyFilter.FilteredHtml | modules/mod_minify/ngx_http_minify_filter_module.c:225-256 | HTML, for every chain: if no buffer but the last falters, the output of the response in one buffer, white space apart; if none does, what the lexer keeps of the whole response with nothing left out but soft bytes, and the cache is its undecided end; without `<!-` and `<![` none does, and the lexer keeps all bytes |
| StripMachine.ProcessBuffer | modules/mod_strip/ngx_http_strip_filter_module.c:168-509 | The loop with its two pointers into one array, the writer never ahead of the reader, computes the 37-state machine |
| StripMachine.RunAppend | modules/mod_strip/ngx_http_strip_filter_module.c:168-509 | From every state, two consecutive buffers give exactly the result of their concatenation |
| StripStreams.ChunkIndependence | modules/mod_strip/ngx_http_strip_filter_module.c:149-165 | Every cutting gives the same output and state |
| StripStreams.RunReachable | modules/mod_strip/ngx_http_strip_filter_module.c:314-352 | The missing `break` at 319-322 makes the bracket and CDATA states unreachable, and with them the assignment at 351 |
| StripStreams.Idempotent | modules/mod_strip/ngx_http_strip_filter_module.c:168-509 | Stripping the output again from the same state gives the same output and state |
| StripStreams.KeepsContent | modules/mod_strip/ngx_http_strip_filter_module.c:489-506 | The output is the input with nothing but space, tab, CR and LF left out |
| StripStreams.WhiteRun | modules/mod_strip/ngx_http_strip_filter_module.c:173-200 | In the text a run of white bytes becomes one space if it has a space in it, and nothing otherwise |
| StripStreams.RegionsByHistory | modules/mod_strip/ngx_http_strip_filter_module.c:274-400 | Over the whole stream: a preformatted region begins only after `<`, spaces and `pre`, and ends only right after `</pre>` in either case; a comment begins only after `<`, spaces and `!--`, and ends only right after `-->` |
| StripStreams.RegionsAreVerbatim | modules/mod_strip/ngx_http_strip_filter_module.c:274-400 | Both regions are written byte for byte |
| StripStreams.CommentEndsIff | modules/mod_strip/ngx_http_strip_filter_module.c:372-400 | A `>` ends a comment if and only if the number of dashes right before it leaves the remainder two when divided by three |
| StripExact.TextByte | modules/mod_strip/ngx_http_strip_filter_module.c:177-192 | In the text every byte that is not white is written |
| StripExact.TagTightened | modules/mod_strip/ngx_http_strip_filter_module.c:201-271 | A whole tag with any attributes: of the spaces before an attribute and before the `>` one is kept, and everything else, quoted values with their spaces included, is written as it is |
| StripExact.QuotedCopied | modules/mod_strip/ngx_http_strip_filter_module.c:446-488 | Behind an equals sign a value in either kind of quotes is written up to its closing quote, and the tag goes on behind it |
| StripExact.QuotedValueCopied | modules/mod_strip/ngx_http_strip_filter_module.c:431-488 | The same for an input that begins in the text; a newline behind the value is written too, as in a tag |
| StripExact.EndTagTightened | modules/mod_strip/ngx_http_strip_filter_module.c:401-418 | An end tag loses the spaces behind its slash and nothing else |
| StripExact.NoTagNoStripping | modules/mod_strip/ngx_http_strip_filter_module.c:206-216 | Behind `<`, spaces and a byte that begins no tag the rest of the response is copied |
| StripExact.DeclarationCopied | modules/mod_strip/ngx_http_strip_filter_module.c:314-370 | A declaration is copied to its `>` |
| StripExact.CommentCopied | modules/mod_strip/ngx_http_strip_filter_module.c:353-400 | A comment is entered and copied, and ends at a `>` behind two dashes modulo three only |
| StripExact.PreCopied | modules/mod_strip/ngx_http_strip_filter_module.c:263-313 | A `pre` tag in either case is copied with all that follows to its closing tag; a byte that fails the match is passed over with it |
| StripExact.PreReads | modules/mod_strip/ngx_http_strip_filter_module.c:274-313 | Every text behind such a tag can be read that way |
| StripExact.DroppedIff | modules/mod_strip/ngx_http_strip_filter_module.c:168-509 | Over every input: which bytes are dropped, and what has been read before them |
| HeaderSlices.RemovedCells | modules/mod_headers_more/src/ngx_http_headers_more_util.c:293-379 | Removing header `i` of part `k` deletes exactly its place from the flattened list; all other headers keep their cells |
| HeaderSlices.RemovedShape | modules/mod_headers_more/src/ngx_http_headers_more_util.c:293-379 | Live slices stay within their arrays and disjoint, also when a split shares one array, and parts behind the head stay non-empty |
| HeaderSlices.RemovedGood | modules/mod_headers_more/src/ngx_http_headers_more_util.c:312-376 | The capacity that removal leaves never reaches a live header |
| HeaderSlices.RoomIff | modules/mod_headers_more/src/ngx_http_headers_more_util.c:308-330 | The capacity that the list keeps is safe if and only if the next push, and every push that would follow it into the last part, takes a cell of the array that holds no header |
| HeaderSlices.RoomAfterRemoval | modules/mod_headers_more/src/ngx_http_headers_more_util.c:308-345 | After any removal, a failed one too: pushes are safe if and only if, for a failed one, other parts follow or the array has a cell to spare, and, for any other, it did not unlink the only part behind an empty head; the same for the next push alone |
| HeaderList.List.RemoveFirst | modules/mod_headers_more/src/ngx_http_headers_more_util.c:306-350 | Removal at the start of a slice, unlinking a part that becomes empty; it fails exactly when it empties the head |
| HeaderList.List.Split | modules/mod_headers_more/src/ngx_http_headers_more_util.c:362-378 | Removal in the middle splits the part into two slices of one array |
| HeaderList.List.RemoveHelper | modules/mod_headers_more/src/ngx_http_headers_more_util.c:293-379 | The three cases together, on the linked parts: deletion from the flattened list, `last` the true last part, validity kept unless the head was emptied |
| HeaderList.List.Push | modules/mod_headers_more/src/ngx_http_headers_more_util.c:308-330 | After any removals, the list push appends to the flattened list in a cell that no live header is in |
| HeaderRuns.Shelf.StepSound | modules/mod_headers_more/src/ngx_http_headers_more_util.c:293-379 | Every removal that succeeds and every push keeps the list sound |
| HeaderRuns.RunSafe | modules/mod_headers_more/src/ngx_http_headers_more_util.c:293-379 | Over every interleaving of removals and pushes: no two headers share a cell, and the headers that no removal took are still there, in their cells and in order, before everything pushed since |
| InputHeaders.Search | modules/mod_headers_more/src/ngx_http_headers_more_headers_in.c:171-195 | The loop over the parts finds the first header of the name, up to case, or there is none |
| InputHeaders.ClearStep | modules/mod_headers_more/src/ngx_http_headers_more_headers_in.c:190-206 | One removal and retry keeps the final result of clearing |
| InputHeaders.ClearsAllIff | modules/mod_headers_more/src/ngx_http_headers_more_headers_in.c:160-259 | Clearing removes every header of the name and no other if and only if the head part is not made of such headers alone, or no other part has one |
| InputHeaders.SplitSticks | modules/mod_headers_more/src/ngx_http_headers_more_util.c:362-378 | How a list comes to the failing state: of headers X, A, X in one part, removing A makes two parts, and clearing X, complete before, then leaves the second X |
| InputHeaders.RoomAfterStuck | modules/mod_headers_more/src/ngx_http_headers_more_headers_in.c:197-214 | After a clear that emptied the head: pushes are safe if and only if other parts follow or the array goes on behind what was cleared |
| InputHeaders.SetHeaderHelper | modules/mod_headers_more/src/ngx_http_headers_more_headers_in.c:160-259 | On every linked list, also one that a failed removal has left: an empty value clears, by repeated removal, and terminates; another value goes to the first header of the name only, or to a new one at the end; the builtin pointer follows, also on the error path, where it leads to the dead cell and the parts are given exactly |
| InputHeaders.SetBuiltinHeader | modules/mod_headers_more/src/ngx_http_headers_more_headers_in.c:262-300 | A builtin header is set where its pointer leads, and a value set through a pointer to a dead cell changes no header of the list; cleared, no header of the name is left and a pointer that led to one is null, unless the head part was made of such headers alone, when it leads to a dead cell; in every case it points into memory of the list |
| HeadersExact.KeptExact | modules/mod_headers_more/src/ngx_http_headers_more_headers_in.c:171-206 | What clearing keeps are the headers whose name differs up to case, in order |
| HeadersExact.ClearExact | modules/mod_headers_more/src/ngx_http_headers_more_headers_in.c:160-259 | What clearing leaves, by the names alone, and when no header of the name is left |
| HeadersExact.InputSetExact | modules/mod_headers_more/src/ngx_http_headers_more_headers_in.c:215-259 | What setting leaves, by the names alone |
| OutputHeaders.SetHeaderHelper | modules/mod_headers_more/src/ngx_http_headers_more_headers_out.c:158-255 | One pass in place computes the new list: first match set, other matches hidden, else one header more; no header moves; the pointer comes to lead to the last match or to the new header |
| OutputHeaders.SetBuiltinHeader | modules/mod_headers_more/src/ngx_http_headers_more_headers_out.c:258-293 | A header that the response points to is set or hidden where the pointer leads; without a pointer the pass decides, and leaves one |
| OutputHeaders.BuiltinTwice | modules/mod_headers_more/src/ngx_http_headers_more_headers_out.c:158-293 | Of two calls, the first without a pointer, the second through the one that the first left, the second alone decides what is sent if and only if the first had nothing to send or no two headers matched; else both values are sent |
| OutputHeaders.SetMeans | modules/mod_headers_more/src/ngx_http_headers_more_headers_out.c:158-255 | A header that is set is sent exactly once, with the value, or not at all if that is empty; other names are sent as before |
| OutputHeaders.ClearHides | modules/mod_headers_more/src/ngx_http_headers_more_headers_out.c:182-206 | Clearing hides exactly the headers of the name, or for a wildcard those whose name begins with it, up to case; a header that it creates is hidden too |
| OutputHeaders.SetTwice | modules/mod_headers_more/src/ngx_http_headers_more_headers_out.c:158-255 | The second call decides: clear then set is set, and set is idempotent, exactly unless it clears, without the right to create, a header that the first call created |
| OutputHeaders.CheckType | modules/mod_headers_more/src/ngx_http_headers_more_headers_out.c:485-509 | The search finds the content type if and only if it is listed |
| OutputHeaders.CheckStatus | modules/mod_headers_more/src/ngx_http_headers_more_headers_out.c:513-530 | The search finds the status if and only if it is listed |
| OutputHeaders.ExecCmd | modules/mod_headers_more/src/ngx_http_headers_more_headers_out.c:104-147 | A command runs its headers in order if its type and status conditions hold, and changes nothing otherwise |
| OutputHeaders.Filter | modules/mod_headers_more/src/ngx_http_headers_more_filter_module.c:121-134 | The filter runs the output commands in order |
| OutputHeaders.LastWriterWins | modules/mod_headers_more/src/ngx_http_headers_more_headers_out.c:104-255 | For every list of applicable commands on non-wildcard names: a name that is written ends with exactly one visible header with the last value, or none if that is empty; a name that is not written is untouched |
| HeadersExact.SetExact | modules/mod_headers_more/src/ngx_http_headers_more_headers_out.c:158-255 | A call by the names alone, wildcard or not: of the headers meant the first gets the value and the others are hidden, no other changes, and when one is added |
| HeadersExact.WildcardHides | modules/mod_headers_more/src/ngx_http_headers_more_headers_out.c:182-207 | Clearing `p*` hides a header if and only if its name begins with `p` up to case, and changes no other |
| HeadersExact.CommandRuns | modules/mod_headers_more/src/ngx_http_headers_more_headers_out.c:104-147 | A command runs for a response of one of its types and one of its statuses, and not for a request |
| HeadersExact.ValueLosesEnd | modules/mod_headers_more/src/ngx_http_headers_more_headers_out.c:136-144 | The value is set without its last byte, the terminator; an empty one clears |
| ConfMerge.ShiftRight | modules/mod_headers_more/src/ngx_http_headers_more_filter_module.c:183-187 | The in-place shift moves the commands to the end of the array although the stretches overlap |
| ConfMerge.Merge | modules/mod_headers_more/src/ngx_http_headers_more_filter_module.c:170-201 | The child ends with the commands of the parent and then its own, and the parent keeps its own, although arrays may come to be shared |
| ConfMerge.MergeTree | modules/mod_headers_more/src/ngx_http_headers_more_filter_module.c:170-201 | Over every tree, merged from the top: each node ends with the commands on its path from the root, so no merge disturbs another node |

## Left out

- nginx itself: module tables, filter chaining, pools, failing allocation, logging, complex values and variables. Evaluated values are parameters.
- `minify_state_abort` by a negative buffer size, and `pre_char2`, which is written and never read. Buffer sizes are natural numbers; nothing is truncated to `int`.
- HtmlMinify.StripTagName: asks that tag names, and texts of closing tags in skipped blocks, be shorter than 64 bytes, as the macros that fill the caches write on without a check; what the code does then is undefined.
- HtmlMinify.StripTag: the same.
- HtmlMinify.StripBuffer: the same.
- BodyFilter.Process: the same, for HTML.
- BodyFilter.Filter: the same, for HTML.
- BodyFilter.Respond: the same, for HTML.
- HeaderList.List.RemoveHelper: after it fails, validity of the list is not promised, as it need not hold; the contract gives the parts that are left, and HeaderSlices.RoomAfterRemoval says when pushes are safe.
- HeaderList.List.Push: asks for room; HeaderSlices.RoomAfterRemoval says after which removals there is none, and what a push does then is undefined.
- InputHeaders.SetHeaderHelper: asks for room if a header must be added, for the same reason.
- InputHeaders.SetBuiltinHeader: the same, if there is no pointer.
- OutputHeaders.SetHeaderHelper: asks for a valid list, as nothing is removed from the response headers.
- OutputHeaders.ExecCmd: every header is set by the generic handler; the handlers of builtin headers come to `OutputHeaders.SetBuiltinHeader`, which is stated for one call at a time.
- `ngx_http_headers_more_rm_header`, which nothing calls.
- Header names with NUL bytes, at which `ngx_strncasecmp` stops; nginx's own parser refuses them.
- `lowcase_key`, the status codes that report failing allocation, the propagation of `headers_in` to parent requests, and the order of phase handlers.
- The setters for Cache-Control lists, Content-Length and Content-Type with its charset; `OutputHeaders.SetHeaderHelper` has the `no_create` flag that the last one uses.
- The directive parsers `parse_header`, `parse_statuses` and `parse_types`.
- The other modules of the repository.
