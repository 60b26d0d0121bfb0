# cxxtools: push parsers, printers, codecs, calendar and event loop, modelled in Dafny

This project models the parts of cxxtools whose correctness is not visible in any single
function: printers and push parsers that have to undo each other, codecs that have to give the
same result however the buffers are cut, calendar arithmetic in closed form, and an event loop
that several threads feed. The model follows the code; where code and documentation disagree,
the code is modelled and the difference is named below.

`dafny verify dfyconfig.toml` checks everything. No module depends on anything outside this
directory.

## How the project is laid out

| files | component |
|---|---|
| `Wrappers`, `Octets`, `Chars`, `Deserializer` | optional values, bytes, character classes, UTF-8, the `SerializationInfo` tree, the deserializer's stack |
| `JsonString`, `JsonParser`, `JsonNesting`, `JsonText`, `JsonPieces`, `JsonRoundTrip`, `JsonUnreadable`, `JsonDocument`, `JsonShape`, `JsonOutcome` | the JSON parser as a step function, the printed text as a grammar, and their relation |
| `JsonObjects`, `JsonFormatter` | the parser and the formatter as objects with the source's fields and loops |
| `EventScheduler`, `WakeUp`, `SelectorDispatch` | event queues, the wake-up protocol, the dispatch pass |
| `Calendar`, `DateTime`, `DateFormat`, `DateRoundTrip`, `DateLoops` | day numbers, microsecond arithmetic, format strings |
| `Base64`, `Base64Encoder`, `Base64Decoder`, `Base64Codec` | Base64, sections 4 of RFC 4648 and 6.8 of RFC 2045 |
| `QuotedPrintable`, `QuotedPrintableCodec`, `ConversionState` | quoted-printable, section 6.7 of RFC 2045 |
| `Md5`, `Md5Context` | the digest context of RFC 1321 |
| `QueryParams` | query strings, section 8.2.1 of RFC 1866 |
| `CsvParser`, `CsvRoundTrip`, `CsvExact`, `CsvSerializer`, `CsvObjects` | CSV, section 2 of RFC 4180 |

Code that computes a value is a function; code that changes an object is a class whose methods
are proved equal to such a function, and the theorems are about the functions. Threads and
callbacks are modelled as arbitrary interleavings and arbitrary scripts. Exceptions are `None`
or a failing result. Text is a sequence of Unicode scalar values, a `std::string` a sequence of
characters below 256; `isalpha`, `isdigit` and `isspace` are those of the "C" locale.

## What is proved, in short

- **JSON.** For every tree a parser can build, in both layouts, with quoted or plain keys,
  printing and parsing gives the tree back if and only if its keys are readable, its names are
  ASCII and it is not a beautified root number. On every input, valid or not, the deserializer's
  stack is as deep as the open members say and `leaveMember` never fails. For every text that is
  accepted, `finish` included, the tree delivered is one the round trip speaks about if and only
  if the text is neither a root number with a character behind it nor an unknown root word.
- **Event loop.** Over every run, with `processEvents` called again from handlers, exceptions and
  the loop run again after an exit, the three queues behave like two first-in first-out queues,
  every clone is destroyed once, and a priority event waits for a bounded number of normal events;
  a committed event or exit request never leaves the loop asleep without a wake byte under way,
  and one dispatch pass visits every device that stays registered exactly once.
- **Calendar.** The closed formulas are inverse to each other and count days, exactly up to the
  largest number whose intermediate values fit 32 bits. Sums and differences of moments are
  exact exactly when the result is representable. Which dates survive a format string is
  characterised exactly, for dates and for dates with time.
- **Codecs.** Base64 and quoted-printable runs over arbitrary buffers, MD5 updates of arbitrary
  lengths.
- **CSV and query strings.** Round trips with the exact condition under which they hold.

### Behaviour of the code worth knowing

- A JSON number at the root that is followed by any character, such as the line end of the
  beautified layout, loses its text in `finish` (src/jsonparser.cpp:485-491 and 639-643).
- An unknown word that is all of a JSON text is accepted silently by `finish`, which delivers an
  empty node.
- `begin` of the JSON parser does not clear the string parser. After a text that breaks off inside an
  escape the next one is misread; the theorems ask for an idle parser (`Quiet`), as every accepted
  text leaves it and a new parser is.
- Plain JSON keys with an underscore are printed and then refused by the parser, as are empty keys.
- The comment on `Date::max()` names 5002-10-17; the number belongs to 1465002-10-17, of which
  the format code for the year prints the last four digits.
- `%H` loses hour 12 without `%p` and every hour from 13 on with it (src/datetime.cpp:201-206); so
  the default format of `DateTime`, that of `toIsoString` and `fromIsoString`, loses the hour of noon.
- A pending blank of the quoted-printable encoder and its "one byte too late" line break are kept
  as they are; so is the decoder's state after `=\r=`.
- `do_unshift` of Base64 moves the column on even if it then reports a lack of room.
- A CSV value that goes on behind its closing quote is collected further, but every such document
  is refused in the end. A value that starts with a single quote is printed without quotes and
  read as a quoted one.
- A query parameter with neither name nor value is printed as nothing and is lost.
- An event that is queued but not committed by another thread does not wake a sleeping loop.

## Model

| member | source | states |
|---|---|---|
| JsonString.StringRoundTrip | src/jsonparser.cpp:78-192 | for every sequence of scalar values, escaping it, adding a quote and feeding the string parser returns the same sequence, surrogate pairs and control characters included |
| JsonString.FeedEscape | src/jsonformatter.cpp:439-482 | reading escaped text appends exactly the characters that were escaped, whatever was read before |
| JsonString.FeedLowHalf | src/jsonparser.cpp:43-46 | the second half of a surrogate pair gives the character that was split into the pair |
| JsonObjects.JsonStringParser.Advance | src/jsonparser.cpp:78-192 | the object's fields change as the step function says; the result is true exactly at the closing quote |
| JsonNesting.StepKeeps | src/jsonparser.cpp:204-605 | for every parser, stack and character: a step keeps the depth equal to the open members of the parser chain, never reaches the invalid-member error, and finishes only with nothing open |
| JsonNesting.DepthAlongEveryInput | src/jsonparser.cpp:332-470 | for every idle parser, new or used, and after every text, accepted or not, the stack is one plus the open members deep, the only error is a syntax error, and acceptance happens at depth one |
| JsonNesting.FeedConcat | src/jsonparser.cpp:204-605 | feeding a text in two parts is feeding it at once |
| DeserializerObject.PutTop | src/deserializer.cpp:47-53 | writing through the top pointer leaves the rightmost path and all outer nodes alone |
| DeserializerObject.Descend | src/deserializer.cpp:47-53 | a child just added is the new end of the rightmost path |
| DeserializerObject.LeaveAlong | src/deserializer.cpp:55-61 | popping a pointer joins the open child to its parent without touching the tree |
| DeserializerObject.Deserializer.Begin | src/deserializer.cpp:34-38 | one empty root is open |
| DeserializerObject.Deserializer.BeginMember | src/deserializer.cpp:47-53 | a child is added to the current node and becomes the current one; the stack of pointers stays the open rightmost path of the tree |
| DeserializerObject.Deserializer.LeaveMember | src/deserializer.cpp:55-61 | fails exactly at depth one, otherwise the child is part of its parent |
| DeserializerObject.Deserializer.SetNull | src/serializationinfo.cpp:776-783 | the current node becomes a value without content and without members |
| JsonRoundTrip.FeedClosed | src/jsonparser.cpp:204-605 | the printed text of a readable string, object or array is consumed to its last character, there the parser returns 1 and the node holds the tree |
| JsonRoundTrip.FeedElements | src/jsonparser.cpp:397-471 | the rest of a printed array is read into its members in order |
| JsonRoundTrip.FeedMembers | src/jsonparser.cpp:256-396 | the rest of a printed object is read into its members in order, keys included |
| JsonRoundTrip.FeedScalarInside | src/jsonparser.cpp:484-560 | a printed number or word inside a container ends at the delimiter, which the outer parser then gets |
| JsonUnreadable.UnreadableFails | src/jsonparser.cpp:256-330 | every printed tree with an unreadable key anywhere is refused |
| JsonDocument.LoadScalar | src/jsonparser.cpp:607-670 | what comes back for a root scalar in each layout, with the lost text of a root number followed by a line end |
| JsonDocument.DocumentRoundTrip | src/jsonformatter.cpp:284-398 | for every tree a parser can build, both layouts and both kinds of keys: the document comes back as the same tree if and only if keys are readable, names ASCII and the root is not a beautified number |
| JsonShape.StepBuilds | src/jsonparser.cpp:204-605 | every step keeps every open node well-shaped, for every character |
| JsonShape.EveryParsedTreeIsShaped | src/jsonparser.cpp:204-605 | while a text is read: what the parser reports as a finished value is well-shaped, and so is what `finish` makes of a text that ends in a number or a known word |
| JsonOutcome.LeadSkipped | src/jsonparser.cpp:215-254 | leading blanks and comments, closed or not, leave the parser where a value may start, with the rest of the text |
| JsonOutcome.EveryLoadedTree | src/jsondeserializer.cpp:108-133 | for every text and idle parser, `finish` included: an accepted text delivers a well-shaped tree if and only if it is neither a root number with a character behind it nor an unknown root word, and what it delivers in those two cases |
| JsonOutcome.NumberAndBlank | src/jsonparser.cpp:639-643 | a digit and a blank deliver a number without digits |
| JsonOutcome.UnknownLetter | src/jsonparser.cpp:651-665 | a letter delivers an empty node |
| JsonOutcome.AcceptedLeavesIdle | src/jsonparser.cpp:630-672 | every text that is accepted, by its last character or by `finish`, leaves an idle parser, so the theorems apply to the next text |
| JsonOutcome.BeginNeedsCleanString | include/cxxtools/jsonparser.h:117-122 | `begin` leaves the string parser alone: behind it the empty string is read as such if and only if the string parser is clean |
| JsonOutcome.BrokenOffInEscape | src/jsonparser.cpp:472-482 | a text that ends inside an escape leaves any idle parser with its string parser inside the escape |
| JsonOutcome.EscapeMisread | src/jsonparser.cpp:472-482 | such a parser, after `begin`, reads the text of one letter n as a line feed |
| JsonObjects.PushParser.Advance | src/jsonparser.cpp:204-605 | the object with its chain of inner parsers changes as the step function says and returns its code |
| JsonObjects.PushParser.Finish | src/jsonparser.cpp:607-670 | completes a scalar that the end of the text ended |
| JsonObjects.Deserialize | src/jsondeserializer.cpp:108-133 | reading a document character by character gives exactly the tree of the model, or its failure |
| JsonFormatter.JsonFormatter.StringOut | src/jsonformatter.cpp:439-482 | appends the escaped text |
| JsonFormatter.JsonFormatter.IsPlainKey | src/jsonformatter.cpp:45-58 | decides whether a key may go without quotes |
| JsonFormatter.JsonFormatter.BeginValue | src/jsonformatter.cpp:484-521 | separator, indentation and key are written, and the two levels decide the separator as the position among the members does |
| JsonFormatter.JsonFormatter.FinishValue | src/jsonformatter.cpp:523-526 | goes back to the outer level |
| JsonFormatter.JsonFormatter.BeginContainer | src/jsonformatter.cpp:284-322 | separator, key and opening bracket are written, one level deeper |
| JsonFormatter.JsonFormatter.FinishContainer | src/jsonformatter.cpp:386-398 | line end, indentation and closing bracket are written, and the next sibling will get its comma |
| JsonFormatter.JsonFormatter.AddValueString | src/jsonformatter.cpp:78-123 | the text of a leaf by its type name; a bool that does not convert is an error and writes nothing |
| JsonFormatter.JsonFormatter.AddNull | src/jsonformatter.cpp:277-282 | writes null as a value |
| JsonFormatter.FormatMembers | src/decomposer.cpp:34-123 | the members of a container come out as the grammar has them, separators by position |
| JsonFormatter.FormatEach | src/decomposer.cpp:34-123 | walking a tree writes exactly the grammar's text for it, or reports the conversion error |
| JsonFormatter.Serialize | src/jsonformatter.cpp:62-76 | a whole document is exactly the text the round trip speaks about |
| EventScheduler.RunKeeps | src/eventloop.cpp:281-355 | over every interleaving of queuing, exiting, running again, nested and throwing calls: delivered plus pending events of each class are the queued ones in order, and every clone is in exactly one place |
| EventScheduler.RunStacks | src/eventloop.cpp:316-354 | over every run each call but the innermost is in a handler, each handler has exactly its event, and a call that may still deliver is within its limit |
| EventScheduler.DestroyedExactlyOnce | src/eventloop.cpp:96-127 | after any such run that left no call running, and the destructor, every clone ever queued has been destroyed exactly once |
| EventScheduler.BoundedBypass | src/eventloop.cpp:294-354 | from every reachable state, while a priority event waits: at most the rest of the active normal batch and at most the limits of the running calls, nested ones included, are delivered of the normal class, and nothing if the batch is already priority or no call is running |
| EventScheduler.WaitingEndsInDelivery | src/eventloop.cpp:294-354 | a waiting priority event leaves the queues only by being delivered as the next of its class |
| EventScheduler.ServeKeeps | src/eventloop.cpp:316-354 | from any point of a call, with handlers that queue, exit, throw and call `processEvents` again: order and conservation hold, the call itself delivers at most its limit and nothing beyond unless handlers make calls, and it ends only for exit, limit, empty queues or an exception |
| EventScheduler.ProcessKeeps | src/eventloop.cpp:281-355 | the same for a whole call with its bypass, nested calls to any depth included |
| EventScheduler.ProcessIsRun | src/eventloop.cpp:281-355 | a whole call with everything its handlers do, nested and throwing calls included, is one of the runs |
| EventScheduler.EventLoop.OnQueueEvent | src/eventloop.cpp:257-271 | the clone joins the end of the queue of its class |
| EventScheduler.EventLoop.OnExit | src/eventloop.cpp:245-255 | sets the exit flag, writes a wake byte and changes nothing else |
| EventScheduler.EventLoop.OnCommitEvent | src/eventloop.cpp:274-278 | the clone joins the queue of its class and a wake byte is written |
| EventScheduler.EventLoop.BypassActive | src/eventloop.cpp:294-314 | priority events overtake an unfinished normal batch, which goes back to the front of its queue |
| EventScheduler.EventLoop.RefillActive | src/eventloop.cpp:318-333 | an empty batch is refilled, priority first |
| EventScheduler.EventLoop.OnProcessEvents | src/eventloop.cpp:281-355 | the loop with its deques refines the model for every script of reactions, called again from handlers and left by their exceptions: final queues, history and whether it throws, hence order, conservation, limit and the reasons to end |
| EventScheduler.EventLoop.Dispose | src/eventloop.cpp:96-127 | the three loops destroy everything still queued, once |
| WakeUp.StepIsSafe | src/eventloop.cpp:179-278 | every step of the loop thread, a callback or another thread, with the three unlocked reads of the second look apart, keeps: if the loop may block without another look, a pending committed event or exit request has a wake byte in the pipe or under way |
| WakeUp.RunIsSafe | src/eventloop.cpp:179-278 | the same over every interleaving |
| WakeUp.NoLostWakeUp | src/selectorimpl.cpp:252-287 | in every interleaving a loop blocked in poll while a committed event or exit request is pending finds a byte in the pipe, or another thread is still to write one |
| WakeUp.DrainEmpties | src/selectorimpl.cpp:264-287 | the read loop empties the pipe and remembers that it read something |
| WakeUp.WakeByteEndsTheWait | src/selector.cpp:158-191 | a byte in the pipe ends every wait, also the one repeated for a timer: by its own steps the loop serves the queues or is back at the exit flag |
| WakeUp.IdleLoopSleeps | src/eventloop.cpp:179-217 | a loop with nothing to do and no timer reaches a wait without limit |
| WakeUp.QueuedOnlyMaySleep | src/eventloop.cpp:257-271 | an event that another thread only queues leaves a sleeping loop asleep, with no byte written and none under way |
| SelectorDispatch.NextFromIsFirst | src/selectorimpl.cpp:289-311 | moving the cursor on finds the first device at or above an address |
| SelectorDispatch.ActionKeeps | src/selectorimpl.cpp:110-137 | adding or removing any device, also the one under the cursor, keeps the cursor on a registered device and behind none that stays |
| SelectorDispatch.TurnKeeps | src/selectorimpl.cpp:289-311 | after a turn the cursor is past the visited device, but past no device that stays |
| SelectorDispatch.TurnsIncrease | src/selectorimpl.cpp:289-311 | every turn is on a device in the set at that time, and visited devices strictly increase |
| SelectorDispatch.AheadIsVisited | src/selectorimpl.cpp:289-311 | from any point of a pass, a registered device the cursor has not passed and nobody removes is visited |
| SelectorDispatch.EveryStayingDeviceCheckedOnce | src/selectorimpl.cpp:289-311 | whatever callbacks add or remove, a device present throughout has exactly one turn, in which it is checked exactly if it is enabled |
| SelectorDispatch.PassEndsAtEnd | src/selectorimpl.cpp:307-311 | a pass leaves the cursor at the end, also when a callback throws |
| SelectorDispatch.SelectorImpl.AddDevice | src/selectorimpl.cpp:110-114 | the device is registered and the cursor stays |
| SelectorDispatch.SelectorImpl.RemoveDevice | src/selectorimpl.cpp:117-137 | the device is gone; a cursor on it moves to its successor, any other cursor stays |
| SelectorDispatch.SelectorImpl.Dispatch | src/selectorimpl.cpp:289-314 | the loop makes exactly the turns of the model, and reports whether some check found an event or a callback threw |
| Calendar.FormulaCountsDays | src/date.cpp:53-61 | the closed formula equals counting days year by year and month by month |
| Calendar.OrderAgrees | src/date.cpp:53-61 | date order is number order, and different dates have different numbers |
| Calendar.NextDayNextNumber | src/date.cpp:251-265 | the next calendar day is valid and has the next number |
| Calendar.ValidDay | src/date.cpp:251-265 | a date is valid exactly if its month and its day within that month exist |
| Calendar.LeapEuclid | include/cxxtools/date.h:373-376 | the truncating remainders decide leap years as the Gregorian rule does, for negative years too |
| Calendar.BackIsValid | src/date.cpp:64-77 | every number from 0 on is converted to a valid date |
| Calendar.BackAndForth | src/date.cpp:64-77 | and the formula leads from that date back to the number |
| Calendar.NumbersThereAndBack | src/date.cpp:53-77 | on 0 to 536802342 the conversions are inverse, and no signed 32 bit intermediate overflows |
| Calendar.DatesThereAndBack | src/date.cpp:53-77 | every valid date whose number is in that range comes back, and no intermediate of the formula overflows |
| Calendar.BoundIsTight | include/cxxtools/date.h:352-353 | the intermediates fit exactly up to 536802342 |
| Calendar.RangeEnds | include/cxxtools/date.h:352-353 | the two ends are -4713-11-24 and 1465002-10-17 |
| DateTimes.SplitIsExact | src/datetime.cpp:358-378 | whole days and rest add up to the span, and the rest keeps the time of day within one day |
| DateTimes.PlusIsExact | src/datetime.cpp:358-378 | addition never throws, keeps the time of day in one day, and is exact if and only if the exact sum is representable |
| DateTimes.SumThenDifference | src/datetime.cpp:380-391 | (a + t) - a = t if and only if the sum is representable |
| DateTimes.DifferenceThenSum | src/datetime.cpp:380-391 | a + (b - a) = b if and only if the difference fits a time span |
| DateTimes.SumsCompose | src/datetime.cpp:393-398 | (a + t) + u = a + (t + u), also where the day number turns over |
| DateTimes.LessByDifference | include/cxxtools/datetime.h:263-268 | comparison agrees with total microseconds and with the sign of the difference |
| DateTimes.DateTime.Add | src/datetime.cpp:358-378 | the fields become the sum of the model, exactly when representable |
| DateTimes.DateTime.Subtract | include/cxxtools/datetime.h:254-255 | subtracting is undone by adding |
| DateRoundTrip.PrintsText | src/date.cpp:178-249 | a supported format prints its literals and the pieces of its codes in order |
| DateRoundTrip.TextReadsBack | src/date.cpp:81-176 | reading that text by the same format consumes all of it, each code reading exactly its own piece |
| DateRoundTrip.YearReadsBack | src/dateutils.cpp:77-100 | four printed digits and a sign are read back, whatever follows |
| DateRoundTrip.MonthReadsBack | src/dateutils.cpp:140-157 | a printed month name is read back as its number, whatever follows |
| DateRoundTrip.MicrosOfSix | src/dateutils.cpp:102-117 | six printed fractional digits are read back as the same microseconds |
| DateRoundTrip.FractionTextReadsBack | src/datetime.cpp:280-301 | fractional digits down to the last that is not zero are read back as the same microseconds, if no digit follows |
| DateRoundTrip.DateSurvives | src/date.cpp:81-249 | printing and reading a date by one format of year, month, day codes and literals gives the same date if and only if the year has at most four digits and whatever has no code is the default |
| DateRoundTrip.DateTimeSurvives | src/datetime.cpp:45-356 | the same with time of day, also for codes that print as many fractional digits as are needed; hours 0 to 23 survive %I with %p, and %H exactly the hours the code allows |
| DateRoundTrip.DefaultSurvives | include/cxxtools/datetime.h:226-232 | by the default format a moment comes back if and only if its year has at most four digits and its hour is not 12 |
| DateLoops.AppendDn | src/dateutils.cpp:119-127 | writing digits backwards into the extended string appends the decimal digits |
| DateLoops.AppendSignedDn | src/dateutils.cpp:129-138 | the same with a sign |
| DateLoops.ScanUnsigned | src/dateutils.cpp:52-62 | reads up to the given number of digits, at least one, and moves the iterator past them |
| DateLoops.ScanUnsignedF | src/dateutils.cpp:64-75 | reads exactly the given number of digits |
| DateLoops.ScanInt | src/dateutils.cpp:77-100 | reads an optional sign and digits into an unsigned number |
| DateLoops.ScanMicros | src/dateutils.cpp:102-117 | reads fractional digits, each worth a tenth of the one before |
| DateLoops.Print | src/datetime.cpp:236-356 | the printing loop equals the printer of the model for every format |
| DateLoops.ReadDate | src/date.cpp:81-176 | the reading loop of Date equals the reader of the model for every text and format |
| DateLoops.ReadDateTime | src/datetime.cpp:45-212 | the same for DateTime, with the twelve hour clock |
| Base64.PlainReadsBack | src/base64codec.cpp:38-68 | decoding the padded text of any bytes gives the bytes |
| Base64.BytesReadBack | src/base64codec.cpp:121-132 | splitting three bytes into four numbers and joining them again in eight bit arithmetic |
| Base64Encoder.AnyCuttingSameText | src/base64codec.cpp:149-199 | any cutting of the input and any room per call write the same text and end in the same state |
| Base64Encoder.TextIsWrapped | src/base64codec.cpp:149-266 | text and ending together are the plain text with line breaks at group boundaries |
| Base64Encoder.WrappedIsLines | src/base64codec.cpp:174-184 | those breaks cut the text into full lines, for 4 to 255 columns |
| Base64Encoder.OneCanonicalText | src/base64codec.cpp:149-266 | every run over an input writes its one canonical text, in lines of at most the given columns |
| Base64Decoder.AnyCuttingDelivers | src/base64codec.cpp:108-146 | in every run, delivered bytes and characters kept are exactly the text consumed, white space skipped |
| Base64Decoder.RoundTrip | src/base64codec.cpp:108-266 | with padding and white space line ends, any encoding run followed by any decoding run gives the input back |
| Base64Codec.NumBytesN | src/base64codec.cpp:71-78 | tells whether enough characters that count are available, kept or ahead |
| Base64Codec.ReadByte | src/base64codec.cpp:81-96 | takes the next character that counts, kept ones first |
| Base64Codec.DoIn | src/base64codec.cpp:108-146 | a call on fixed buffers conserves all characters, stays inside the output, leaves a whole group only for lack of room, and reports ok exactly if nothing is left or kept |
| Base64Codec.DoOut | src/base64codec.cpp:149-199 | a call takes bytes until the next group would not fit and writes exactly their text |
| Base64Codec.DoUnshift | src/base64codec.cpp:202-266 | the last group with its padding and line break, or nothing for lack of room |
| Md5.FoldOnRemainder | src/md5.c:120-157 | what follows depends on the message so far only through its block fold and its remainder |
| Md5.CountAdds | src/md5.c:130-134 | the two word count with carry is the number of bits modulo 2^64 |
| Md5.IndexFromCount | src/md5.c:127-128 | the buffer position computed from the low word is the length modulo 64 |
| Md5.CounterWraps | src/md5.c:145-146 | the loop counter leaves the unsigned range exactly if position and length together reach 2^32 |
| Md5.PaddedIsWhole | src/md5.c:172-179 | padding and length complete the last block |
| Md5.WordsReadBack | src/md5.c:283-311 | decoding encoded words gives the words |
| Md5Context.EncodeWords | src/md5.c:283-296 | words as little-endian bytes |
| Md5Context.DecodeWords | src/md5.c:301-311 | and back |
| Md5Context.MD5Context.constructor | src/md5.c:105-114 | a new context holds the empty message |
| Md5Context.MD5Context.AddToCount | src/md5.c:130-134 | the count of bits after an update |
| Md5Context.MD5Context.Update | src/md5.c:120-157 | after any sequence of updates the context holds the block fold of the concatenated input, its remainder and its bit count |
| Md5Context.MD5Context.Final | src/md5.c:162-186 | the digest is the fold of the whole padded message, and the context is wiped |
| QuotedPrintable.TurnConserves | src/quotedprintablecodec.cpp:200-290 | one turn of the encoder, in every state: what it writes fits and decodes to the byte, or the byte is put back |
| QuotedPrintable.EveryRunConserves | src/quotedprintablecodec.cpp:175-295 | in every run of the encoder over any chunks and room, column and byte held back carried from call to call: decoding the output and appending the byte held back gives exactly the input taken |
| QuotedPrintable.AnyCuttingDelivers | src/quotedprintablecodec.cpp:81-171 | any cutting of a text decodes to the same bytes |
| QuotedPrintable.RoundTrip | src/quotedprintablecodec.cpp:81-295 | any encoding run followed by any decoding run gives back what was taken, but for the byte held back |
| QuotedPrintable.TurnsConserve | src/quotedprintablecodec.cpp:200-290 | a whole call writes inside its room and conserves its bytes |
| QuotedPrintable.CallConserves | src/quotedprintablecodec.cpp:175-295 | a call of the encoder, from any state: decoding its output and appending the byte held back gives the byte held before and the bytes taken |
| QuotedPrintableCodec.ReadByte | src/quotedprintablecodec.cpp:38-52 | the byte held back comes first |
| QuotedPrintableCodec.EncodeByte | src/quotedprintablecodec.cpp:215-289 | the branches for one byte write what the model's turn writes |
| QuotedPrintableCodec.DoOut | src/quotedprintablecodec.cpp:175-295 | a call on fixed buffers is a call of the model, with the same output, column, byte held back and result |
| QuotedPrintableCodec.DoIn | src/quotedprintablecodec.cpp:81-171 | a call delivers what the text consumed decodes to, or reports the error |
| QueryParams.UrlReadsBack | src/query_params.cpp:392-410 | parsing the printed text appends all parameters but those with neither name nor value, for all byte values |
| QueryParams.RoundTrip | src/query_params.cpp:73-285 | the parameter list comes back if and only if no parameter has both name and value empty |
| QueryParams.ReparsedOnce | src/query_params.cpp:127-202 | a byte that ends an escape is parsed again exactly once, on any input |
| QueryParams.UrlParser.ParseByte | src/query_params.cpp:73-202 | the object's fields change as the step function says |
| QueryParams.UrlParser.FinishAll | src/query_params.cpp:204-261 | the parameter under way is added |
| QueryParams.ReadUrl | src/query_params.cpp:289-297 | the parameters of a whole text |
| QueryParams.AppendUrl | src/query_params.cpp:263-285 | the encoded bytes are appended |
| QueryParams.PrintUrl | src/query_params.cpp:392-410 | the text of a parameter list |
| CsvParser.StepKeepsNesting | src/csvparser.cpp:80-364 | every step on every input keeps the nesting of rows and cells; a cell left too early stays so and arises only behind a closing quote |
| CsvParser.RowStartIsBalanced | src/csvparser.cpp:218-243 | at every row start, on every input, nothing but the root is open |
| CsvParser.MalformedIsRefused | src/csvparser.cpp:335-361 | once text follows a closing quote, every continuation of the document is refused |
| CsvRoundTrip.RowReadsBack | src/csvparser.cpp:218-361 | a printed row is read as one row behind the rows before it, empty values as null |
| CsvRoundTrip.TitleLineReadsBack | src/csvparser.cpp:92-216 | plain titles are read back, with the delimiter known or detected |
| CsvRoundTrip.TableReadsBack | src/csvparser.cpp:80-400 | the text of a table with plain titles and readable values is read as the table |
| CsvRoundTrip.SingleQuoteIsLost | src/csvserializer.cpp:110-134 | a value that starts with a single quote is printed bare and read back without the quote and with the line end |
| CsvExact.TableComesBack | src/csvparser.cpp:80-400 | a table comes back, with the delimiter given or detected, if and only if no value that is printed without quotes starts with a single quote or contains what the parser takes for its delimiter |
| CsvExact.SerializedTableComesBack | src/csvserializer.cpp:210-267 | the same through the serializer, for the tree of a table |
| CsvSerializer.ArrayReadsBack | src/csvserializer.cpp:210-267 | any array of objects, nested ones flattened, comes back as the table of its columns with missing values as null |
| CsvSerializer.ColumnsOfTable | src/csvserializer.cpp:39-64 | the columns collected from a table are its titles in order |
| CsvObjects.CsvParser.Advance | src/csvparser.cpp:80-364 | the object and its deserializer change as the step function says |
| CsvObjects.CsvParser.Finish | src/csvparser.cpp:366-400 | completes the cell and row under way |
| CsvObjects.CsvParser.StoreValue | src/csvparser.cpp:402-413 | an empty value is stored as null |
| CsvObjects.CsvParser.CheckColumns | src/csvparser.cpp:47-59 | the first row decides the number of columns, every other one has to match |
| CsvObjects.Deserialize | src/csvdeserializer.cpp:54-73 | reading a document character by character gives exactly the tree of the model, or its failure |
| CsvObjects.CsvOut | src/csvserializer.cpp:110-134 | quotes where they are needed, doubled inside |
| CsvObjects.CollectTitles | src/csvserializer.cpp:39-64 | every flattened name once, in order of first appearance |
| CsvObjects.CollectData | src/csvserializer.cpp:66-93 | the first value of every flattened name |
| CsvObjects.MapIsLookup | src/csvserializer.cpp:247-260 | finding a title in that map is finding the first value of that name |
| CsvObjects.Serialize | src/csvserializer.cpp:210-267 | the text of an array, with selected or collected columns or none |

## Left out

- Sockets, files, pipes, poll, directories, logging and demos; the wake pipe is a counter and poll a step that may or may not be ready.
- Line and column numbers and the wording of error messages in the parsers.
- JSON leaves that are not stored as strings, and therefore floating point and integer conversion.
- Characters beyond the "C" locale in `isalpha`, `isalnum` and `isspace`; for CSV titles with detected delimiter this means ASCII letters and digits.
- UTF-8 decoding of CSV titles taken from member names: names and titles are the same text, which holds for ASCII.
- CSV titles that need quotes, delimiters other than the comma, and skipping of empty lines in the round trip; the parser itself is modelled with all of them.
- CSV objects and single values as the root of the serializer: they only add easy members.
- Calls of `wait` or `run` and a second dispatch pass from inside a callback, in the wake-up protocol and the dispatch pass.
- EventScheduler.EventLoop.OnProcessEvents: other threads act only while a handler runs; runs in which they act at every other point of a call are covered by the theorems about runs.
- `_activeEventQueueIsPriority` is not initialised by the constructor of the event loop; the model starts it as false.
- Timers are steps that may be due at any time; signals and slots, `Connectable` and `Selectable` are not modelled.
- Progress of the quoted-printable encoder and its line length: a final blank stays held back and lines can exceed 76 characters.
- Base64 without padding in the decoder, where a short last group stays in the state, and bytes from 128 on in the decoder, where the source indexes its table with a negative number.
- The block transformation of MD5 is a parameter: every statement holds for every transformation.
- Md5Context.MD5Context.Update: asks that position and length together stay below 2^32, exactly the lengths for which the loop counter does not wrap.
- Years for which the closed date formula overflows 32 bits: the formula is stated over unbounded numbers, and it is proved where it stays within them.
- DateRoundTrip.DateTimeSurvives: formats where text that may be taken for more digits follows %j or %J, where another code for fractions follows them, and with codes that only the printer or only the reader knows, are printed and read by the model but have no round trip.
- Week numbers, local time and the parsing of time spans.
- Properties, INI, XML and binary formats, regular expressions, MIME and the Unicode tables.
