# Presto firmware and examples, modelled in Dafny

This project models the integer and string logic at the heart of the Pimoroni
Presto firmware and its example programs, and proves what that logic
promises.

The main model is the PSRAM-backed storage region of
`modules/py_frozen/psram.py`, in `psram.dfy`. The region is a fixed-size run
of bytes in the PSRAM window, with a 16-byte header (`<10sIH`: magic, length,
CRC16) just before it. The model covers three uses of it:

- a byte stream with a cursor (`seek`, `tell`, `read`, `readinto`,
  `readline`, `write`, `getvalue`);
- a MicroPython block device (`readblocks`, `writeblocks`, `ioctl`);
- the header gate that decides, at construction, whether existing contents
  are kept, erased or refused.

The window is one owned byte array, so every method states exactly which
bytes it changes. The CRC is the source's own MSB-first CRC16 with mask
0x8001 and initial value 0, kept bit for bit.

The other models:

- `websocket.dfy`: the WebSocket client of
  `examples/home_assistant/hampws.py`. It covers frame encoding and parsing
  (sections 5.2 and 5.3 of RFC 6455), for the client's masked frames and a
  server's unmasked ones (section 5.1), ping, pong and close handling, the
  message id counter, and host parsing. The socket is a pair of byte
  streams.
- `st7701.dfy`: the ST7701 display driver. It covers the PIO timing state
  machine and its instruction words, line and frame switching, the
  backlight curve, palette packing and the clock divider.
- `word_clock.dfy`, `word_time.dfy` and `world_clock_fr.dfy`: three clocks
  that tell the time in words. `hour_names.dfy` holds the shared hour table.
- `tomato.dfy` and `stop_watch.dfy`: the pomodoro timer and the stopwatch,
  as classes whose methods take the current time as a parameter.
- `image_gallery.dfy`: the gallery's LFSR "fizzlefade", its picture index
  and its file list.
- `launcher.dfy`: the launcher's application names, header lines, file
  filter and `launch.txt` hand-over.
- `rgb565.dfy` and `presto_light.dfy`: RGB565 packing in the image
  converter, and the ambient-light sampler that decodes and averages such
  pixels.
- `wrappers.dfy`, `bits.dfy`, `decimal.dfy` and `text.dfy`: helpers for
  results, bit operations, decimal digits and Python string methods.

Verify the project by passing every `.dfy` file to `dafny verify` in one
command.

## Model

| member | source | states |
|---|---|---|
| Psram.Shift | modules/py_frozen/psram.py:40-48 | one inner-loop step keeps the CRC state within 16 bits |
| Psram.SetBranch | modules/py_frozen/psram.py:41-44 | with bit 15 set, shift left, XOR 0x8001 and mask to 16 bits is the step |
| Psram.ClearBranch | modules/py_frozen/psram.py:45-47 | with bit 15 clear, shift left and mask to 16 bits is the step |
| Psram.Crc16 | modules/py_frozen/psram.py:33-50 | the CRC of any byte string stays within 16 bits |
| Psram.ViperCrc16 | modules/py_frozen/psram.py:32-50 | the nested loop returns the CRC16 of the `num` bytes from `start`, and 0 for a count of zero or less |
| Psram.Crc16DetectsByteChange | modules/py_frozen/psram.py:33-50 | changing any single byte of the data changes its CRC16 |
| Psram.Memcpy | modules/py_frozen/psram.py:11-15 | copies exactly `num` bytes to `dest` at `at`, leaves every other byte alone, returns `num`; a count of zero or less copies nothing |
| Psram.Memset | modules/py_frozen/psram.py:26-29 | sets exactly `num` bytes from `at` to the value and nothing else |
| Psram.Delimited | modules/py_frozen/psram.py:18-23 | the search result lies within the bytes and is positive for non-empty input |
| Psram.DelimitedFirst | modules/py_frozen/psram.py:18-23 | the result is one past the FIRST delimiter, or the whole length when there is none |
| Psram.FindNext | modules/py_frozen/psram.py:18-23 | the loop returns the Delimited index of the `num` bytes, and a non-positive count unchanged |
| Psram.LengthBytesRoundTrip | modules/py_frozen/psram.py:92-96 | the little-endian u32 length field unpacks to the length packed |
| Psram.LengthFromBytesRoundTrip | modules/py_frozen/psram.py:92-96 | any four stored bytes repack to themselves |
| Psram.CrcBytesRoundTrip | modules/py_frozen/psram.py:92-96 | the little-endian u16 CRC field unpacks to the CRC packed |
| Psram.CrcFromBytesRoundTrip | modules/py_frozen/psram.py:92-96 | any two stored CRC bytes repack to themselves |
| Psram.PackHeader | modules/py_frozen/psram.py:96 | the packed header is 16 bytes and starts with the magic b"PSRAM_____" |
| Psram.UnpackHeader | modules/py_frozen/psram.py:92 | unpacking yields a 10-byte magic and a 16-bit CRC |
| Psram.UnpackPackHeader | modules/py_frozen/psram.py:92-96 | unpacking a written header gives back magic, length and CRC |
| Psram.PackUnpackHeader | modules/py_frozen/psram.py:92-96 | any stored header carrying the magic is the packing of its unpacked fields |
| Psram.CrcOf | modules/py_frozen/psram.py:99-102 | the CRC is 16 bits, and 0 when the CRC is skipped |
| Psram.WrittenHeaderValid | modules/py_frozen/psram.py:93-97 | a header written for a body passes the read-header check for that body |
| Psram.TamperInvalidatesHeader | modules/py_frozen/psram.py:93 | with the CRC checked, changing any one body byte makes a valid header invalid |
| Psram.SkippedCrcIgnoresBody | modules/py_frozen/psram.py:99-101 | with the CRC skipped, header validity does not depend on the body |
| Psram.BitOr | modules/py_frozen/psram.py:75 | bitwise OR is at least each operand |
| Psram.BaseOrOffset | modules/py_frozen/psram.py:75 | the bitwise OR of PSRAM_BASE and offset equals `PSRAM_BASE + offset` for every offset inside the window |
| Psram.OffsetOf | modules/py_frozen/psram.py:72-73 | without an offset the region sits at PSRAM_SIZE - size |
| Psram.Configure | modules/py_frozen/psram.py:57-75 | the constructor's errors, in its order: too large, division by zero, not a block multiple; success exactly when all checks pass and the region fits, with blocks * blocksize == size and the address at PSRAM_BASE + offset |
| Psram.Want | modules/py_frozen/psram.py:124 | `length or self.length`: no count or 0 asks for the whole region, any other count for itself |
| Psram.Psram.constructor | modules/py_frozen/psram.py:69-76 | the object keeps blocks, block size, length and address, with the cursor at 0 |
| Psram.Psram.CalculateCrc | modules/py_frozen/psram.py:99-102 | returns the CRC of the body, or 0 when skipped |
| Psram.Psram.ReadHeader | modules/py_frozen/psram.py:89-93 | returns the unpacked 16 header bytes, and valid exactly when magic, length and CRC all agree |
| Psram.Psram.WriteHeader | modules/py_frozen/psram.py:95-97 | stamps magic, length and the body's CRC before the body, changes no other byte, and leaves the header valid |
| Psram.Psram.Clear | modules/py_frozen/psram.py:104-106 | rewinds the cursor and zero-fills the body, leaving header and the rest of memory alone |
| Psram.Psram.CheckHeader | modules/py_frozen/psram.py:80-87 | a valid header is kept untouched; otherwise it refuses without writing unless `create`, which zero-fills the body and leaves a valid header |
| Psram.Psram.Seek | modules/py_frozen/psram.py:108-109 | the cursor becomes any given position |
| Psram.Psram.Tell | modules/py_frozen/psram.py:111-112 | returns the cursor |
| Psram.Psram.Read | modules/py_frozen/psram.py:123-127 | returns the body bytes from the cursor up to the requested count clipped at the end and advances past them; a negative count fails without moving |
| Psram.Psram.ReadInto | modules/py_frozen/psram.py:114-117 | copies the clipped count into the buffer's front and SETS the cursor to that count, as the source does |
| Psram.Psram.ReadLine | modules/py_frozen/psram.py:119-121 | returns the bytes from the cursor through the first newline (or to the end) and advances past them; past the end it fails without moving |
| Psram.Psram.LineWindow | modules/py_frozen/psram.py:119-121 | the count handed to read is the line length, and negative past the end |
| Psram.Psram.Write | modules/py_frozen/psram.py:129-132 | overwrites the body at the cursor with the clipped buffer, advances the cursor by the count, leaves memory outside header and body alone and the header valid |
| Psram.Psram.GetValue | modules/py_frozen/psram.py:134-137 | returns exactly the body |
| Psram.Psram.ReadBlocks | modules/py_frozen/psram.py:139-145 | reads at block_num * blocksize + offset into the buffer and restores the cursor |
| Psram.Psram.WriteBlocks | modules/py_frozen/psram.py:147-154 | writes at block_num * blocksize + offset, restores the cursor and leaves the header valid |
| Psram.Psram.Ioctl | modules/py_frozen/psram.py:161-178 | the answer to each block-device operation, None for unknown ones |
| Psram.Psram.IoctlGeometry | modules/py_frozen/psram.py:170-173 | block count times block size is the region length |
| Psram.Open | modules/py_frozen/psram.py:57-87 | a configuration error is returned with memory untouched; otherwise the open succeeds exactly when create is set or the stored header is already valid for the region; a region with a valid stored header is kept with every byte of memory untouched, and an invalid one opened with create is zero-filled and stamped, with every byte outside its header and body unchanged; success yields a valid region at the computed offset with the cursor at 0 |
| Psram.MkTmpfs | modules/py_frozen/psram.py:185-186 | succeeds exactly when the size is acceptable, with 256-byte blocks, a valid header and the CRC skipped above 256 KiB, at address PSRAM_BASE + PSRAM_SIZE - size; a region that already holds a valid header there is kept with memory untouched (so its files survive a soft reset), otherwise it is zero-filled; no byte outside its header and body changes |
| Psram.BlockRoundTrip | modules/py_frozen/psram.py:139-154 | writing a block and reading the same block back with a buffer of the same size gives the written bytes, keeps the cursor and leaves the header valid |
| WebSocket.BigEndian | examples/home_assistant/hampws.py:56-59 | `struct.pack('>H')` and `'>Q'` write exactly 2 and 8 bytes |
| WebSocket.FromBigEndian | examples/home_assistant/hampws.py:104-109 | `struct.unpack('>H')` and `'>Q'` give a value below 256^k |
| WebSocket.BigEndianRoundTrip | examples/home_assistant/hampws.py:51-109 | unpacking the big-endian bytes of any value that fits gives the value back |
| WebSocket.XorTwice | examples/home_assistant/hampws.py:128-132 | XOR-ing a byte twice with the same key byte restores it |
| WebSocket.Mask | examples/home_assistant/hampws.py:66-68 | the masked payload has the payload's length and byte i is payload[i] XOR key[i % 4] |
| WebSocket.MaskInvolution | examples/home_assistant/hampws.py:62-132 | unmasking with the same key returns the original payload |
| WebSocket.LengthField | examples/home_assistant/hampws.py:51-59 | the length fields take 1, 3 or 9 bytes for the three length tiers |
| WebSocket.EncodeFrame | examples/home_assistant/hampws.py:48-70 | every sent frame has FIN and the mask bit set, carries the key right after the length fields, and is header + 4 + payload bytes long |
| WebSocket.BuildFrame | examples/home_assistant/hampws.py:40-70 | the frame built with the masking loop is the encoded frame |
| WebSocket.ShortLength | examples/home_assistant/hampws.py:97 | the 7-bit length is below 128 |
| WebSocket.ParseLength | examples/home_assistant/hampws.py:97-109 | a parsed length ends within the input, after the two header bytes |
| WebSocket.TakePayload | examples/home_assistant/hampws.py:111-132 | a payload read has exactly the announced length and fits after the key |
| WebSocket.ParseFrame | examples/home_assistant/hampws.py:88-132 | a parsed frame uses at least its two header bytes and no more than the input |
| WebSocket.ParseFrameSteps | examples/home_assistant/hampws.py:88-132 | frame parsing fails on a short header or short length fields, and otherwise reads FIN, opcode, mask bit and the unmasked payload after the length fields |
| WebSocket.LengthRoundTrip | examples/home_assistant/hampws.py:51-109 | the length fields the sender writes read back as the payload length, ending where the key starts |
| WebSocket.LengthAfter | examples/home_assistant/hampws.py:51-109 | the same, whatever the first byte |
| WebSocket.FrameRoundTrip | examples/home_assistant/hampws.py:40-132 | a sent frame read back gives FIN, its opcode, the mask bit and the original payload, consuming exactly the frame |
| WebSocket.ServerLengthField | examples/home_assistant/hampws.py:97-109 | the length fields a server writes are as long as the client's and have the mask bit clear |
| WebSocket.ServerFrame | examples/home_assistant/hampws.py:88-132 | a server's frame has FIN set, the mask bit clear and no key: header, length fields and the payload as is |
| WebSocket.ServerLengthRoundTrip | examples/home_assistant/hampws.py:97-109 | a server's length fields read back as the payload length, ending where the payload starts |
| WebSocket.ServerFrameRoundTrip | examples/home_assistant/hampws.py:88-132 | an unmasked server frame read back gives FIN, its opcode, the mask bit clear and the payload unchanged, consuming exactly the frame |
| WebSocket.SentRoundTrip | examples/home_assistant/hampws.py:88-132 | a frame, masked or not, parses back to its opcode and payload and leaves the bytes after it unread |
| WebSocket.FrameSplit | examples/home_assistant/hampws.py:48-70 | a sent frame is its first byte, its length fields, the key and the masked payload, in that order |
| WebSocket.PayloadRoundTrip | examples/home_assistant/hampws.py:62-132 | the key and masked payload read back as the original payload |
| WebSocket.ParseAssembled | examples/home_assistant/hampws.py:88-132 | a frame put together from a first byte, masked length fields, key and payload parses to those parts |
| WebSocket.ParseLengthTail | examples/home_assistant/hampws.py:97-109 | the length does not depend on the first header byte |
| WebSocket.PayloadFits | examples/home_assistant/hampws.py:104-109 | a parsed payload is shorter than 2^64 bytes |
| WebSocket.Deliver | examples/home_assistant/hampws.py:78-149 | every pong payload a receive sends back fits in a frame |
| WebSocket.DeliverText | examples/home_assistant/hampws.py:135-144 | a text frame, masked or unmasked as a server sends it, is delivered with its payload, leaving the rest unread and sending nothing |
| WebSocket.TextAnswers | examples/home_assistant/hampws.py:310-313 | a non-empty text reply at the head of the stream, masked or not, counts as a reply for a request, whether the read blocks or not |
| WebSocket.DeliverPing | examples/home_assistant/hampws.py:138-140 | a ping, masked or not, is answered with a pong of the same payload, then the next frame is delivered |
| WebSocket.DeliverClose | examples/home_assistant/hampws.py:135-137 | a close frame, masked or not, delivers nothing and marks the connection closed |
| WebSocket.PongFramesCons | examples/home_assistant/hampws.py:139 | the pongs go out in the order of the pings |
| WebSocket.RemoveAll | examples/home_assistant/hampws.py:15 | removing a pattern never lengthens the string |
| WebSocket.RemoveAllFree | examples/home_assistant/hampws.py:15 | a string lacking any one of the pattern's characters is left unchanged |
| WebSocket.BeforeColon | examples/home_assistant/hampws.py:15 | the result is a colon-free prefix, followed by a colon unless it is the whole string |
| WebSocket.BeforeColonOf | examples/home_assistant/hampws.py:15 | the part before the first colon of "h:port" is h |
| WebSocket.Host | examples/home_assistant/hampws.py:15 | the parsed host contains no colon |
| WebSocket.HostOfUrl | examples/home_assistant/hampws.py:15 | the host of "http://h:port" is h, for every host name without a colon or slash and every port without a slash |
| WebSocket.Client.constructor | examples/home_assistant/hampws.py:12-22 | parsed host, token, not connected, not authenticated, message id 1 |
| WebSocket.Client.Recv | examples/home_assistant/hampws.py:89-121 | receives at most n of the waiting bytes, in order, consuming them |
| WebSocket.Client.SendFrame | examples/home_assistant/hampws.py:40-76 | appends exactly the encoded frame to what was sent |
| WebSocket.Client.RecvFrame | examples/home_assistant/hampws.py:78-149 | returns the delivered message, consumes the delivered bytes, sends a pong for every ping, and clears `connected` on a close frame |
| WebSocket.Client.AnswerPing | examples/home_assistant/hampws.py:138-140 | the ping branch sends the pong and then behaves as the next receive |
| WebSocket.Client.ReadFrame | examples/home_assistant/hampws.py:88-132 | reads exactly the parsed frame's bytes, or empties the stream when the frame is cut short |
| WebSocket.Client.ReadLength | examples/home_assistant/hampws.py:97-109 | reads exactly the extended length field, or empties the stream when it is cut short |
| WebSocket.Client.ReadPayload | examples/home_assistant/hampws.py:111-132 | reads the key and payload as TakePayload does, consuming exactly them |
| WebSocket.Client.ReadChunks | examples/home_assistant/hampws.py:117-125 | the chunk loop returns the first `length` waiting bytes, or fails having used all bytes |
| WebSocket.Unmask | examples/home_assistant/hampws.py:128-132 | the unmasking loop computes the mask of the payload |
| WebSocket.Client.ReadMessage | examples/home_assistant/hampws.py:263-272 | nothing when not connected; otherwise one non-blocking receive, with an empty message read as none |
| WebSocket.Client.CallService | examples/home_assistant/hampws.py:279-320 | refused without sending before authentication; otherwise exactly the request frame and the pongs of the receive go out, the id advances and the non-blocking receive consumes its frames; the result is True exactly when authenticated, a non-empty reply arrived and its success field is true; authenticated is unchanged, connected is cleared exactly when the receive met a close frame, and a refused call leaves inbox and connected as they were |
| WebSocket.Client.SubscribeEvents | examples/home_assistant/hampws.py:322-361 | refused without sending before authentication; otherwise the request and the pongs go out and the reply is read blocking; a subscription id is returned exactly when authenticated, a non-empty reply arrived and its success field is true, and it is the current id, which only then advances; authenticated is unchanged, connected is cleared exactly when the receive met a close frame, and a refused call leaves inbox and connected as they were |
| WebSocket.Client.SubscribeTrigger | examples/home_assistant/hampws.py:363-397 | as subscribe_events, with the reply read without blocking; authenticated is unchanged, connected is cleared exactly when the receive met a close frame, and a refused call leaves inbox and connected as they were |
| WebSocket.Client.Subscribe | examples/home_assistant/hampws.py:331-393 | the steps subscribe_events and subscribe_trigger share: refusal before authentication, the request and the pongs sent, the reply read with the given blocking flag, and an id exactly on a non-empty successful reply, taken and advanced only then; authenticated is unchanged, connected is cleared exactly when the receive met a close frame, and a refused call leaves inbox and connected as they were |
| WebSocket.Client.GetState | examples/home_assistant/hampws.py:399-426 | refused before authentication; otherwise the request goes out, the id advances and the blocking reply is read; authenticated is unchanged, connected is cleared exactly when the receive met a close frame, and a refused call leaves inbox and connected as they were |
| WebSocket.Client.Close | examples/home_assistant/hampws.py:447-457 | sends an empty close frame and leaves the client neither connected nor authenticated |
| St7701.PhaseCount | drivers/st7701/st7701.cpp:118-121 | every phase lasts at least 4 cycles, so the count minus 3 written into the word is positive |
| St7701.TimingWord | drivers/st7701/st7701.cpp:137-169 | VSYNC is high in a timing word exactly when the row is past the vertical sync pulse, and HSYNC is low exactly in the sync phase |
| St7701.WordFields | drivers/st7701/st7701.cpp:137-169 | bits 16 and up hold the phase's count minus 3 and the low half holds the phase's instruction |
| St7701.Interrupts | drivers/st7701/st7701.cpp:155-167 | the data interrupt fires in the back porch of display rows, the frame interrupt at the end of the display rows, the line interrupt on the rows just before and in the window, and phases 0 and 1 hold a nop |
| St7701.NextPhase | drivers/st7701/st7701.cpp:176 | the next phase is in 0..3 |
| St7701.StepInRange | drivers/st7701/st7701.cpp:172-176 | one step keeps the phase in 0..3 and the row below TIMING_V_FRONT |
| St7701.PhaseCycle | drivers/st7701/st7701.cpp:172-176 | phases go 0, 1, 2, 3, 0, and the row moves on, wrapping to 0, only when leaving phase 3 |
| St7701.Advance | drivers/st7701/st7701.cpp:132-177 | any number of steps keeps the timing state in range |
| St7701.Words | drivers/st7701/st7701.cpp:132-177 | n loop passes put exactly n words in the FIFO |
| St7701.AdvanceSnoc | drivers/st7701/st7701.cpp:132-177 | n + 1 words are the n words followed by the word of the state reached after n |
| St7701.LineAdvance | drivers/st7701/st7701.cpp:134-176 | four words from phase 0 make one line: the row moves on by one, wrapping at TIMING_V_FRONT |
| St7701.BacklightLevel | drivers/st7701/st7701.cpp:723-730 | the PWM level never exceeds BACKLIGHT_PWM_TOP and is zero exactly for brightness 0 |
| St7701.BacklightMonotone | drivers/st7701/st7701.cpp:723-730 | a brighter setting never gives a dimmer PWM level |
| St7701.PackRgb | drivers/st7701/st7701.cpp:745-756 | the encoded colour leaves the low 14 bits clear |
| St7701.PackRgb888 | drivers/st7701/st7701.cpp:732-743 | the encoded colour leaves the low 14 bits clear |
| St7701.PackAgree | drivers/st7701/st7701.cpp:732-756 | the RGB and RGB888 overloads encode the same colour the same way |
| St7701.PackFields | drivers/st7701/st7701.cpp:749-753 | the top 5 bits of red, 6 of green and 6 of blue, and bit 2 of red, read back from their fields |
| St7701.ClockDividers | drivers/st7701/st7701.cpp:308-338 | at width 480 the timing divisor is even and the parallel machine runs at twice its rate; at other widths both use the same divisor |
| St7701.DividerBounds | drivers/st7701/st7701.cpp:308-338 | the timing clock stays at or below 34 MHz, and palette mode at width 480 divides by at least 8 |
| St7701.RowShift | drivers/st7701/st7701.cpp:259-260 | rows are doubled exactly when the height is 240 |
| St7701.LineStart | drivers/st7701/st7701.cpp:195-198 | the next line address is a whole number of framebuffer lines from the start |
| St7701.LineInFrame | drivers/st7701/st7701.cpp:195-198 | every line address of the 480 display rows lies inside the framebuffer, with a whole line after it, for heights 480 and 240 |
| St7701.Driver.constructor | drivers/st7701/st7701.cpp:227-260 | the driver starts at phase 0, row 0, with an empty FIFO and no queued framebuffer |
| St7701.Driver.DriveTiming | drivers/st7701/st7701.cpp:130-178 | the loop fills the free FIFO slots with the words of the states it passes through and ends in the state those steps reach; the display row, line address, backlight, framebuffer and queued framebuffer are unchanged |
| St7701.Driver.EmitWord | drivers/st7701/st7701.cpp:133-176 | one pass writes the current state's word and moves to the next phase and row, leaving the display state and both framebuffers unchanged |
| St7701.Driver.StartLineXfer | drivers/st7701/st7701.cpp:191-199 | the display row advances, and the next line address is null after the last row and otherwise the start of that row in the framebuffer; the timing state, backlight and both framebuffers are unchanged |
| St7701.Driver.SetFramebuffer | drivers/st7701/st7701.hpp:57-59 | the framebuffer is queued for the next frame and nothing else changes |
| St7701.Driver.StartFrameXfer | drivers/st7701/st7701.cpp:201-225 | a queued framebuffer replaces the current one, the queue empties, and the scan restarts at row 0 |
| St7701.Driver.SetBacklight | drivers/st7701/st7701.cpp:723-730 | the PWM gets 0 for 0, the top for 255 and 181 + b*b/85 otherwise; nothing else changes, the framebuffers included |
| St7701.Driver.SetPaletteColour | drivers/st7701/st7701.cpp:745-756 | with a palette, the entry gets the encoded colour and no other entry changes; without one nothing happens |
| St7701.Driver.SetPaletteColour888 | drivers/st7701/st7701.cpp:732-743 | as SetPaletteColour, for the RGB888 overload |
| HourNames.NumsDomain | examples/word_clock.py:62-65 | the hour table is defined exactly on 0..12 and every name is a single non-empty word |
| WordClock.ApproxWords | examples/word_clock.py:61-82 | every phrase starts "it is about", and it ends in "O'Clock" exactly outside minutes 8..52 |
| WordClock.ApproxTime | examples/word_clock.py:61-82 | the phrase exists exactly when its word list does |
| WordClock.ApproxWordsShape | examples/word_clock.py:61-82 | the phrase is defined exactly when the hour it names is in the table, so for every hour 0..12; it starts "it is about", names that hour, and is made of non-empty words without spaces |
| WordClock.TwelveHour | examples/word_clock.py:89 | a 24-hour clock hour folds into 0..12 |
| WordClock.Update | examples/word_clock.py:85-92 | update draws words exactly when approx_time has a phrase for the folded hour |
| WordClock.UpdateWords | examples/word_clock.py:85-92 | for every hour of the day the words drawn are approx_time's words for the folded hour |
| WordTime.ApproxTime | examples/word_time.py:49-82 | the relation is "O'Clock", "past" or "to"; it is "past" exactly for minutes 3..32 and "to" exactly for 33..57 |
| WordTime.ApproxTimeDefined | examples/word_time.py:49-82 | the phrase exists exactly when the hour it names is in the table, so for every hour 0..12 and every minute |
| WordTime.ApproxTimeBuckets | examples/word_time.py:55-82 | each minute falls in one five-minute bucket and reads as that bucket's word with "past" the hour or "to" the next; outside 3..57 it is the named hour "O'Clock" |
| WordTime.Symmetry | examples/word_time.py:59-80 | m minutes past an hour and m minutes to the next use the same word, for m from 3 to 27 |
| WordTime.Update | examples/word_time.py:85-92 | every hour of the day gives a phrase |
| WordTime.UpdateAfternoon | examples/word_time.py:88 | an afternoon hour reads like the hour twelve before it |
| WorldClockFr.HeuresMap | examples/world_clock_fr.py:120-134 | the hour table covers exactly 0..12, each word three to six cells long |
| WorldClockFr.MinutesComposedAsWritten | examples/world_clock_fr.py:164-200 | the composed table as written covers exactly 21..59 other than the tens |
| WorldClockFr.MinutesComposed | examples/world_clock_fr.py:164-200 | the corrected composed table covers the same minutes |
| WorldClockFr.MinutesMapsAsWritten | examples/world_clock_fr.py:138-204 | the merged minute table as written is defined exactly on 1..59 |
| WorldClockFr.MinutesMaps | examples/world_clock_fr.py:138-204 | the corrected minute table is defined exactly on 1..59 |
| WorldClockFr.ComposedReading | examples/world_clock_fr.py:164-200 | every corrected minute from 21 to 59 other than the tens reads as its tens word, "ET" for the ones, and its unit word |
| WorldClockFr.ComposedAsWrittenRepeats | examples/world_clock_fr.py:188-199 | as written, 48 lights the cells of 46 and 58 those of 56, unlike the corrected table |
| WorldClockFr.HourWord | examples/world_clock_fr.py:213-230 | midnight and noon take only their word, one takes the singular "HEURE", and 2..11 take "HEURES" |
| WorldClockFr.Lists | examples/world_clock_fr.py:114-118 | both cell lists start with "IL EST" and the "pm" cells in the afternoon |
| WorldClockFr.ApproxTimeFrAsWritten | examples/world_clock_fr.py:105-257 | as written, every reading starts with IL EST and the am/pm cells, and with full minutes every time has one |
| WorldClockFr.ApproxTimeFr | examples/world_clock_fr.py:105-257 | the corrected clock: every reading starts with IL EST and the am/pm cells, and with full minutes every time has one |
| WorldClockFr.ApproxTimeFrReading | examples/world_clock_fr.py:105-257 | the corrected clock fails only in the "No" mode from minute 60 on, and otherwise reads "IL EST", the hour it counts from, and the minutes, by one rule that the special cases for 15, 40, 50 and 55 agree with |
| WorldClockFr.CountDownReading | examples/world_clock_fr.py:207-241 | counting down reads as the next hour, "MOINS" and the minutes to go |
| WorldClockFr.CountUpReading | examples/world_clock_fr.py:217-250 | counting up reads as the hour and the minutes past it, with "ET DEMIE" at 30 and "ET QUART" at 15 |
| WorldClockFr.EarlyMinutesAsWritten | examples/world_clock_fr.py:254-257 | as written, 10:15 in the "No" mode lights exactly the cells of 11:00, unlike the corrected clock |
| WorldClockFr.FortyEightAsWritten | examples/world_clock_fr.py:190 | as written, 48 minutes past any hour lights the cells of 46 (the table entry used at lines 249-250), unlike the corrected clock |
| Tomato.TimerFor | examples/tomato.py:128-137 | a period is a task, a short break or a long break, and it is long exactly on a break with four tasks done |
| Tomato.NextTasks | examples/tomato.py:173-177 | the corrected counter stays in 1..4 after a task ends |
| Tomato.TasksAfterCount | examples/tomato.py:173-177 | with the corrected counter, after n tasks it shows (n - 1) mod 4 + 1 |
| Tomato.LongBreakEveryFourth | examples/tomato.py:128-177 | with the corrected counter, the break after the n-th task is long exactly when n is a multiple of four |
| Tomato.NextTasksAsWritten | examples/tomato.py:173-177 | as written, the counter stays in 0..4 and falls to 0 exactly after it reached 4 |
| Tomato.TasksAfterWrittenCount | examples/tomato.py:173-177 | as written, the counter after n tasks is n mod 5 |
| Tomato.LongBreakAsWritten | examples/tomato.py:128-177 | as written, the break after the n-th task is long exactly when n mod 5 is 4, so the second long break follows task 9 rather than task 8 |
| Tomato.RemainingString | examples/tomato.py:181-183 | the text is at least five characters long |
| Tomato.RemainingStringValue | examples/tomato.py:181-183 | with under 100 minutes left, the text is two digits, a colon and two digits that read back as the seconds left |
| Tomato.Tomato.constructor | examples/tomato.py:47-61 | no alert, not on a break, no tasks done, stopped, unpaused, nothing elapsed, a task period set |
| Tomato.Tomato.Reset | examples/tomato.py:149-151 | the start time and elapsed time are zero and nothing else changes |
| Tomato.Tomato.StartBuzzer | examples/tomato.py:153-155 | the alert start time is now and nothing else changes |
| Tomato.Tomato.StopBuzzer | examples/tomato.py:157-159 | the alert start time is zero and nothing else changes |
| Tomato.Tomato.Run | examples/tomato.py:125-147 | the alert stops, the period's length is chosen, and a stopped timer starts from zero now, a running one pauses, and a paused one resumes with the elapsed time carried on |
| Tomato.Tomato.Update | examples/tomato.py:161-178 | the alert stops after two seconds; while ticking, the elapsed time is now minus the start; a period that has run its length stops, starts the alert, counts a finished task with the corrected counter and switches between task and break; the counter stays in 0..4 |
| Tomato.Tomato.ReturnString | examples/tomato.py:181-183 | the text is at least five characters |
| StopWatch.Pad3 | examples/stop_watch.py:81-83 | three digits |
| StopWatch.TimedeltaString | examples/stop_watch.py:81-83 | str(timedelta) is at least H:MM:SS long |
| StopWatch.Display | examples/stop_watch.py:83 | the display is at most ten characters |
| StopWatch.ClockLength | examples/stop_watch.py:81-83 | under ten hours H:MM:SS is seven characters |
| StopWatch.FractionHundredths | examples/stop_watch.py:81-83 | the first two fraction digits are the hundredths of a second |
| StopWatch.UnderADay | examples/stop_watch.py:81-83 | within a day the text is the clock and the fraction, with no day count |
| StopWatch.DisplayUnderTenHours | examples/stop_watch.py:81-83 | under ten hours the display is the H:MM:SS clock of the whole seconds, then, unless the time is a whole second, a point and two digits that read back as the hundredths |
| StopWatch.StopWatch.constructor | examples/stop_watch.py:54-57 | zero start time, nothing elapsed, not running |
| StopWatch.StopWatch.Start | examples/stop_watch.py:59-65 | running, from now minus the elapsed time once there is a start time, else from now |
| StopWatch.StopWatch.Stop | examples/stop_watch.py:67-69 | only clears running |
| StopWatch.StopWatch.Reset | examples/stop_watch.py:71-74 | zero start time and elapsed time, running unchanged |
| StopWatch.StopWatch.ReturnString | examples/stop_watch.py:76-83 | the elapsed time is brought up to now only while running, and the text is its display |
| StopWatch.StopAndResume | examples/stop_watch.py:59-79 | stopping at t1 and starting again at t2 loses nothing: at t3 the count is the count at t1 plus t3 - t2 |
| ImageGallery.Step | examples/image_gallery.py:120-124 | a step keeps a 16-bit state below 0x10000 |
| ImageGallery.StepInjective | examples/image_gallery.py:120-124 | two 16-bit states with the same successor are equal, because the taps have bit 15 set |
| ImageGallery.Iterate | examples/image_gallery.py:120-124 | any number of steps from a 16-bit state stays below 0x10000 |
| ImageGallery.IterateCancel | examples/image_gallery.py:120-124 | equal states after i and j steps mean the start recurs after j - i steps |
| ImageGallery.NoRepeat | examples/image_gallery.py:120-124 | before the state comes back to its start, no state repeats |
| ImageGallery.OrbitDistinct | examples/image_gallery.py:120-124 | the states visited before the start recurs are all different |
| ImageGallery.Returns | examples/image_gallery.py:136-147 | from any 16-bit state the LFSR comes back to it within 65536 steps, so fizzlefade's loop ends |
| ImageGallery.Point | examples/image_gallery.py:117-129 | the point is (-1, -1) or lies on the 240 x 240 area, where x may be -1 for a zero low byte |
| ImageGallery.PointOfState | examples/image_gallery.py:117-129 | a pixel of the area is the point of exactly one 16-bit state, the one with x + 1 as low byte and y as high byte |
| ImageGallery.Pixels | examples/image_gallery.py:139-141 | every pixel fizzlefade draws lies on the area |
| ImageGallery.NumberedFiles | examples/image_gallery.py:98-103 | a name of four characters or fewer has no number and sorts as 0 |
| ImageGallery.NumberedFilesOf | examples/image_gallery.py:98-103 | a file named by a number and a 4-character extension sorts by that number |
| ImageGallery.FilterImages | examples/image_gallery.py:107 | the kept files are exactly the listed .jpg and .jpeg files, each as often as it is listed |
| ImageGallery.FilterImagesAppend | examples/image_gallery.py:107 | the filter distributes over concatenation, so the kept files stay in listing order |
| ImageGallery.FilterImagesOne | examples/image_gallery.py:107 | a single file is kept exactly when it is a .jpg or .jpeg |
| ImageGallery.Insert | examples/image_gallery.py:107 | inserting adds the name and keeps all the others |
| ImageGallery.InsertSorted | examples/image_gallery.py:107 | inserting into a sorted list keeps it sorted |
| ImageGallery.SortBy | examples/image_gallery.py:107 | sorting keeps exactly the same names and orders them by key |
| ImageGallery.FilterSorted | examples/image_gallery.py:107 | filtering a sorted list keeps it sorted |
| ImageGallery.GalleryFiles | examples/image_gallery.py:106-107 | the gallery lists exactly the listed .jpg and .jpeg files, in order of their numbers |
| ImageGallery.NextIndex | examples/image_gallery.py:172-176 | from a picture, "next" stays on a picture and wraps to 0 exactly from the last |
| ImageGallery.PrevIndex | examples/image_gallery.py:177-181 | from a picture, "previous" stays on a picture and wraps to the last exactly from 0 |
| ImageGallery.IndexMoves | examples/image_gallery.py:172-181 | next and previous keep the index in 0..total_image_count and each undoes the other |
| ImageGallery.Gallery.constructor | examples/image_gallery.py:52-111 | the sorted picture list, total_image_count one less than its length, the first picture and the LFSR at 1 |
| ImageGallery.Gallery.ReturnPoint | examples/image_gallery.py:114-129 | the point of the state before the step, and one LFSR step |
| ImageGallery.Gallery.FizzleFrame | examples/image_gallery.py:138-143 | one frame runs the LFSR on by at least one step, without passing the state 1, and draws the points of the states it visits |
| ImageGallery.Gallery.FizzleFade | examples/image_gallery.py:132-147 | fizzlefade runs exactly one LFSR period, draws the points of every state in it, and leaves the state at 1 |
| ImageGallery.Gallery.ShowImage | examples/image_gallery.py:164-181 | the index moves to the next picture and then to the previous one, as asked, wrapping at both ends |
| Launcher.Upper | examples/main.py:98 | upper() turns an ASCII lower-case letter into its capital and leaves every other character alone |
| Launcher.Capitalize | examples/main.py:98 | a word keeps its length, gets its first letter in upper case and keeps the rest |
| Launcher.CapitalizeAll | examples/main.py:98 | every word is capitalised, in order |
| Launcher.Underscores | examples/main.py:98 | every underscore becomes a space and every other character stays |
| Launcher.DefaultName | examples/main.py:98 | the default name splits into the capitalised words of the file name |
| Launcher.DefaultNameWords | examples/main.py:98 | the default name's words are the file name's words, without ".py" and split at underscores and whitespace, each with an upper-case first letter and the rest unchanged |
| Launcher.ReadLine | examples/main.py:14 | a line and the rest make up the text, and without a newline the line is everything (the same readline reads the header at line 102) |
| Launcher.ReadLineEnds | examples/main.py:14 | with a newline, the line ends at the first one |
| Launcher.HeaderLines | examples/main.py:101-102 | exactly three lines are read |
| Launcher.ReadLineOf | examples/main.py:102 | a line without a newline followed by one is read up to and including it |
| Launcher.HeaderLinesOf | examples/main.py:101-102 | the header is the first three lines, stripped, and what follows them plays no part |
| Launcher.ApplyLine | examples/main.py:104-113 | a line fails exactly when it is an icon line naming a key the table does not have; otherwise an icon line sets the icon to its key's glyph, a name or description line sets that field to the text after the tag, and every other field stays |
| Launcher.ApplyLines | examples/main.py:104-113 | the icon of an applied header is the starting one or a glyph of the table |
| Launcher.HeaderFails | examples/main.py:104-107 | the header fails exactly when one of its icon lines names an unknown key |
| Launcher.LastNameWins | examples/main.py:109-110 | the name is the text after the tag on the last name line, or the default when there is none |
| Launcher.LastDescriptionWins | examples/main.py:112-113 | the description is the text after the tag on the last description line, or the default when there is none |
| Launcher.LastIconWins | examples/main.py:105-107 | the icon is the glyph of the key on the last icon line, or the default key "description" when there is none |
| Launcher.Counter.constructor | examples/main.py:88 | the class counter starts at 0 |
| Launcher.Application.constructor | examples/main.py:90-117 | the application holds its index, header fields and file |
| Launcher.Application.Create | examples/main.py:90-117 | the counter always moves on by one; the application gets the counter's old value as index and the header applied to the defaults, and it fails exactly when an icon key is unknown |
| Launcher.ReadHeader | examples/main.py:104-113 | the loop over the header lines computes the header applied line by line |
| Launcher.LauncherFiles | examples/main.py:232-234 | the offered scripts are exactly the listed .py files other than main.py and secrets.py, each as often as it is listed |
| Launcher.LauncherFilesAppend | examples/main.py:232-234 | the filter distributes over concatenation, so the scripts stay in listing order |
| Launcher.LauncherFilesOne | examples/main.py:232-234 | a single file is offered exactly when it is a .py file other than main.py and secrets.py |
| Launcher.CreateAll | examples/main.py:232-234 | with every icon key known, every script gets an application; a result means every key was known, and holds one application per script, in listing order, with indices counting on from the counter and with the name, icon and description its header lines give |
| Launcher.LaunchTarget | examples/main.py:12-20 | a script is started only when the first line of launch.txt can be read and ends in ".py" |
| Launcher.LaunchRoundTrip | examples/main.py:219-221 | the file name launch() writes is handed over on the next start (lines 12-20) as its module name |
| PrestoLight.Range | examples/lib/PrestoLight.py:14-15 | range() gives start, start + step, ..., each below stop, empty exactly when stop <= start, and complete: the next value would reach stop |
| PrestoLight.Samples | examples/lib/PrestoLight.py:11-15 | a section samples 7 columns and 7 rows, 12 pixels apart from its origin |
| PrestoLight.Decode | examples/lib/PrestoLight.py:31-34 | the decoded red and blue are in 0..31 and green in 0..63 |
| PrestoLight.DecodeConverted | examples/lib/PrestoLight.py:26-34 | a pixel stored by the converter decodes to its top 5, 6 and 5 channel bits |
| PrestoLight.UnpackWordBytes | examples/lib/PrestoLight.py:29 | reading the converter's two bytes little-endian gives the byte-swapped word |
| PrestoLight.DecodeSwapped | examples/lib/PrestoLight.py:31-34 | the byte-swapped word decodes to the word's RGB565 fields |
| PrestoLight.Scaled | examples/lib/PrestoLight.py:26-39 | a scaled sample is at most 248 in red and blue and 252 in green |
| PrestoLight.ScaledConverted | examples/lib/PrestoLight.py:26-39 | a pixel the converter wrote is sampled as its top channel bits, scaled back up |
| PrestoLight.SumAppend | examples/lib/PrestoLight.py:37-39 | the totals of two lists of samples add up |
| PrestoLight.SumBound | examples/lib/PrestoLight.py:37-41 | n samples within the channel bounds total at most n times the bounds |
| PrestoLight.SumUniform | examples/lib/PrestoLight.py:37-41 | n equal samples total n times the sample |
| PrestoLight.Column | examples/lib/PrestoLight.py:24-39 | one column gives one sample per row, in row order |
| PrestoLight.Grid | examples/lib/PrestoLight.py:23-41 | the loops take one sample per column and row |
| PrestoLight.GridSamples | examples/lib/PrestoLight.py:23-39 | when every grid point has the same colour, so does every sample |
| PrestoLight.GridBound | examples/lib/PrestoLight.py:23-39 | every sample of the grid is within the channel bounds |
| PrestoLight.Average | examples/lib/PrestoLight.py:18-49 | each channel of the average is its total over the 49 samples rounded down |
| PrestoLight.AverageBound | examples/lib/PrestoLight.py:43-47 | every channel of the average is at most 248 for red and blue and 252 for green |
| PrestoLight.AverageUniform | examples/lib/PrestoLight.py:43-47 | a section whose samples all have one colour averages to that colour |
| PrestoLight.SectionUniform | examples/lib/PrestoLight.py:23-41 | such a section gives 49 samples of that colour |
| PrestoLight.ReturnAvg | examples/lib/PrestoLight.py:17-47 | the nested loops compute the average of the section's 49 scaled samples |
| PrestoLight.SumSnoc | examples/lib/PrestoLight.py:37-39 | one more sample adds itself to the totals |
| PrestoLight.GridSnoc | examples/lib/PrestoLight.py:23-39 | one more column adds its column total to the totals |
| PrestoLight.SectionsOnScreen | examples/lib/PrestoLight.py:53-58 | Reactive has seven sections and each lies inside the 240 x 240 frame |
| PrestoLight.Update | examples/lib/PrestoLight.py:64-67 | LED i gets the average colour of section i, for all seven |
| PrestoLight.Averages | examples/lib/PrestoLight.py:64-67 | the first n section averages, in LED order |
| Rgb565.Channels | tools/convert-image-rgb565.py:27-29 | red and blue keep 5 bits and green 6 |
| Rgb565.Pack | tools/convert-image-rgb565.py:32 | the three channels read back from their fields of the packed word |
| Rgb565.PackInjective | tools/convert-image-rgb565.py:27-32 | two pixels pack to the same word exactly when their top channel bits agree |
| Rgb565.WordBytes | tools/convert-image-rgb565.py:35 | a word becomes two bytes |
| Rgb565.WordBytesBigEndian | tools/convert-image-rgb565.py:35 | the high byte comes first |
| Rgb565.ImageToData | tools/convert-image-rgb565.py:18-41 | the output has two bytes per pixel, and pixel k's bytes are its packed word, high byte first |

## Left out

- PSRAM raw pointers: the viper helpers write to absolute addresses with no bounds check. The model uses one array of PSRAM_SIZE bytes and adds an `OutsideAperture` error for a region or header that would fall outside the window. The source has no such check, so there it would silently write outside the window.
- Psram.Psram.Read, ReadInto, ReadLine, Write: require a cursor of at least 0. A negative cursor set with `seek` would index before the region in the source, which this model does not follow.
- `eraseblock` is not modelled: it writes `length` bytes from a block start, which overruns the region, and `ioctl` never calls it.
- `mktmpfs` leaves out the LittleFS format and mount and the `raw` flag. `__str__`, the `debug` prints and the `io.StringIO` base class are left out too.
- WebSocket connect is left out: the HTTP upgrade handshake, the SHA-1/base64 accept key, the network, `uselect` polling and socket time-outs. Polling is approximated as "data is waiting when the inbox is not empty".
- JSON encoding and decoding, and UTF-8 decoding, are left out. Messages are byte strings. The reply's "success" field is a parameter of CallService, SubscribeEvents and SubscribeTrigger.
- WebSocket.Client.GetState: returns the raw reply; picking the entity out of the states list is not modelled.
- WebSocket.Client: `authenticated` becomes true only in connect, which is left out. The random masking keys are parameters, and one pong key serves a whole receive call.
- WebSocket.Client.Close: sends the close frame unconditionally, because the model has no "socket open" field; the source skips it when there is no socket. The exception handler of `_recv_frame` is left out.
- WebSocket.LengthField: requires a payload below 2^64 bytes, the limit of `struct.pack('>Q')`.
- St7701: the PIO FIFO is a number of free slots passed to DriveTiming. DMA, PWM, SPI, GPIO, the init command sequences, interrupts, `wait_for_vsync` and the `update` copy are left out. MHZ is the Pico SDK's 1,000,000.
- St7701.DividerBounds: requires that `sys_clk + 34 MHz - 1` fits in 32 bits. ClockDividers itself wraps the sum as the source's `uint32_t` does.
- Text.Split, Text.Strip: whitespace is ASCII only (space, tab, newline, carriage return, vertical tab, form feed). Python also treats other Unicode spaces as whitespace.
- Decimal.ParseInt: digits separated by underscores, and non-ASCII digits, are not accepted; Python's `int()` accepts both.
- Launcher.Upper: ASCII letters only; Python's `upper()` also maps other alphabets.
- Time sources become parameters: `time.time`, `time.ticks_ms`, RTC and NTP. The 30-bit wrap of `ticks_ms` is not modelled.
- `adjust_to_timezone` in world_clock_fr.py is left out, because it depends on `time.mktime` and `localtime`. So is `update_coord`'s "am"/"pm" choice.
- Tomato.Tomato.Update: counts a finished task with the corrected NextTasks, so 4 becomes 1, where tomato.py:177 resets the counter to 0. The counter as written is NextTasksAsWritten; the Findings table gives both halves.
- Tomato's buzzer tone, pen colours, hue and drawing are left out. So are the stopwatch's drawing and buttons.
- StopWatch.DisplayUnderTenHours: the display is stated under ten hours. Longer times, and negative ones, follow the general `timedelta` text that TimedeltaString defines, with no lemma about them.
- ImageGallery: the model does not prove that the LFSR's period visits every pixel. It does prove that the period is at most 65536 steps and that no state repeats within it.
- ImageGallery.SortBy: a stable insertion sort. The model does not state that it equals Python's `sorted` with the same key.
- The gallery's JPEG decoding, SD card set-up, `display_error` and `reinit_sd` are left out.
- Launcher.Application.Create and Launcher.CreateAll: the header lines and the directory listing are parameters, because file I/O is not modelled. The default icon is the key "description", as the source sets it.
- The launcher's drawing, carousel animation and touch handling are left out. On the `launch.txt` path, the file removal and the module import are left out; only the module name handed over is modelled.
- PrestoLight.ReturnAvg: `int(total / c)` uses float division in the source; for these non-negative totals it equals floor division, which the model uses. The frame buffer must be 240 x 240 x 2 bytes, and each section must lie on screen.
- The WS2812 LED driver in PrestoLight is left out; Update returns the seven colours.
- The image converter's PIL and numpy loading and its file output are left out. ImageToData takes the pixels.

## Findings

| source | as written | input that shows it | evidently intended | confidence | as-written member | corrected member |
|---|---|---|---|---|---|---|
| examples/world_clock_fr.py:254-257 | with `full_minutes == "No"`, `coords_minus` (next hour, no minutes) is returned even at or before the half hour | 10:15 in "No" mode lights exactly the cells of 11:00 | count down only past the half hour, and show the minutes past before it | not executed | WorldClockFr.EarlyMinutesAsWritten | WorldClockFr.ApproxTimeFrReading |
| examples/world_clock_fr.py:190,199 | entries 48 and 58 use the unit word of 6 | 48 lights the same cells as 46, and 58 the same as 56 | the unit word of 8 | not executed | WorldClockFr.ComposedAsWrittenRepeats | WorldClockFr.ComposedReading |
| examples/tomato.py:173-177 | after four tasks the counter goes back to 0, so the task that just ended is not counted | the second long break follows task 9 rather than task 8 | a long break after every fourth task | not executed | Tomato.LongBreakAsWritten | Tomato.LongBreakEveryFourth |
