# Keyboard input of the doomgeneric SDL front end

This project models the input half of `doomgeneric_sdl.c`, the SDL display
and input adapter of doomgeneric. It covers two pieces.

The **key translator** (`convertToDoomKey`) maps an SDL key code to the
byte the game engine understands. Enter and Escape map to themselves. `a` and
Left give the left arrow, `d` and Right the right arrow, `w` and Up the up
arrow, `s` and Down the down arrow. Left-ctrl gives fire, space gives use and
left-shift gives the run key (`KEY_RSHIFT`). Every other key gives 0.

The **event queue** is a 16-slot circular array of packed
`(pressed << 8) | key` shorts with separate write and read cursors.
`addKeyToQueue` fills it and `DG_GetKey` drains it. The event loop feeds it:
every key-down is enqueued with `pressed = 1` and every key-up with
`pressed = 0`.

The queue has no "full" check. Producing never looks at the read cursor, and
the queue is empty exactly when the two cursors are equal. So 16 unconsumed
productions bring the cursors back together, and the queue then reads as
empty. The model keeps this behaviour as written.

Files:

- `doom_keys.dfy` (module `DoomKeys`): the translator. The SDL and game-key
  constants live in an abstract `KeyTable`. Its `Valid()` asks only for what
  the headers guarantee: the recognised SDL codes are distinct (they are the
  labels of one `switch`), and the game keys are distinct and non-zero.
- `key_queue.dfy` (module `KeyQueueModel`): the queue as a value.
  - `Produce` and `Consume` are the two operations.
  - `Pending` is the consumer's view: the unpacked events from the read cursor
    up to the write cursor.
  - `ProduceEvents` and `Routed` model the event loop.
  - The lemmas state FIFO order below capacity, the wrap-around loss and the
    pack/unpack round trip.
- `sdl_input.dfy` (module `SdlInput`): the globals as the class `KeyQueue`.
  It holds an `array<u16>` and two cursor fields. Its methods
  `AddKeyToQueue`, `GetKey` and `EventLoop` update them in place. Each method
  is proved against the value model.

Modelling decisions:

- The C code packs with `(pressed << 8) | key` and stores the result in an
  `unsigned short`. The model packs with `(pressed * 256 + key) % 65536`.
  This is the same value: `key` is below 256, so the `|` adds, and the
  16-bit store truncates. Unpacking is `data / 256` and `data % 256`, for
  `>> 8` and `& 0xFF`.
- `DG_GetKey` writes through its two pointers only when it returns 1. The
  method takes the caller's previous values as `pressed0` and `doomKey0` and
  returns them unchanged when the queue is empty.
- A queue that overwrote only the oldest event would let 16 reads return
  events 2 to 17 after a 17th production. This code does not. The 16th
  production already makes the cursors equal, so all 16 events are lost. A
  17th production then leaves only itself readable. The model keeps this
  behaviour. `SixteenProductionsLookEmpty` and `SeventeenthProductionAlone`
  state it.

## Model

| member | source | states |
|---|---|---|
| `DoomKeys.ConvertToDoomKey` | doomgeneric/doomgeneric_sdl.c:25-66 | the result is 0 or the code of one of the game keys |
| `DoomKeys.ConvertRecognised` | doomgeneric/doomgeneric_sdl.c:27-59 | each recognised SDL key translates to the game key the switch binds it to (Enter, Escape, the arrows, fire, use, run) |
| `DoomKeys.ConvertUnrecognised` | doomgeneric/doomgeneric_sdl.c:60-62 | a key code translates to 0 if and only if it is none of the recognised SDL keys |
| `DoomKeys.ConvertIsBinding` | doomgeneric/doomgeneric_sdl.c:27-62 | a key code translates to game key g if and only if it is an SDL key bound to g (both directions of the table) |
| `DoomKeys.ConvertSharedTargets` | doomgeneric/doomgeneric_sdl.c:35-58 | `a`/Left, `d`/Right, `w`/Up and `s`/Down share their arrow; left shift gives the run key |
| `KeyQueueModel.Pack` | doomgeneric/doomgeneric_sdl.c:72 | unpacking the packed short gives back `pressed % 256` and the key, so `pressed` in {0,1} and any byte round-trip |
| `KeyQueueModel.Unpack` | doomgeneric/doomgeneric_sdl.c:119-120 | the pressed half is below 256 and the two halves recombine to the stored short |
| `KeyQueueModel.Initial` | doomgeneric/doomgeneric_sdl.c:13-14 | every slot is zero, both cursors are 0, and nothing is pending |
| `KeyQueueModel.Pending` | doomgeneric/doomgeneric_sdl.c:107 | fewer than 16 events are ever pending, and none exactly when the read cursor equals the write cursor |
| `KeyQueueModel.Produce` | doomgeneric/doomgeneric_sdl.c:68-77 | the write cursor becomes (old + 1) % 16 and the read cursor is kept; the slot at the old write cursor decodes to the translated event; every other slot is untouched |
| `KeyQueueModel.Consume` | doomgeneric/doomgeneric_sdl.c:105-124 | no event and no change when the cursors are equal; otherwise the unpacked slot at the read cursor, with the read cursor advanced to (old + 1) % 16; slots and write cursor unchanged |
| `KeyQueueModel.ProducePending` | doomgeneric/doomgeneric_sdl.c:74-76 | a production appends the translated event to the pending events, except that with 15 pending the queue then reads as empty |
| `KeyQueueModel.ConsumePending` | doomgeneric/doomgeneric_sdl.c:107-122 | a consumption returns the oldest pending event and leaves the rest pending, or returns nothing and changes nothing when none is pending |
| `KeyQueueModel.ProduceEvent` | doomgeneric/doomgeneric_sdl.c:94-101 | one pass of the loop body keeps the queue well-formed |
| `KeyQueueModel.ProduceEvents` | doomgeneric/doomgeneric_sdl.c:81-102 | the event loop over any run of events keeps the queue well-formed |
| `KeyQueueModel.Routed` | doomgeneric/doomgeneric_sdl.c:94-101 | at most one consumer event per SDL event, each with pressed 0 or 1 |
| `KeyQueueModel.RoutedOne` | doomgeneric/doomgeneric_sdl.c:94-101 | a key-down routes to (1, translated key), a key-up to (0, translated key), any other event to nothing |
| `KeyQueueModel.RoutedAppend` | doomgeneric/doomgeneric_sdl.c:81-102 | routing keeps event order: the routed events of a concatenation are the concatenation of the routed events |
| `KeyQueueModel.ProduceEventsPending` | doomgeneric/doomgeneric_sdl.c:68-102 | after the event loop, a consumer sees the newest (total % 16) of all events ever enqueued, oldest first |
| `KeyQueueModel.Drain` | doomgeneric/doomgeneric_sdl.c:105-124 | n successive reads give n results and a well-formed queue |
| `KeyQueueModel.DrainPending` | doomgeneric/doomgeneric_sdl.c:105-124 | draining n of the pending events returns exactly those, oldest first, and leaves the rest pending |
| `KeyQueueModel.FifoBelowCapacity` | doomgeneric/doomgeneric_sdl.c:68-124 | from equal cursors, at most 15 key events and then as many reads return the translated events in event order, each once; one more read reports empty |
| `KeyQueueModel.SixteenProductionsLookEmpty` | doomgeneric/doomgeneric_sdl.c:74-76 | from equal cursors, 16 key events with no read make the cursors equal again, so the queue reports empty |
| `KeyQueueModel.SeventeenthProductionAlone` | doomgeneric/doomgeneric_sdl.c:74-76 | from equal cursors, after 17 key events with no read the 17th is the only event a reader can see |
| `SdlInput.KeyQueue.constructor` | doomgeneric/doomgeneric_sdl.c:11-14 | a fresh 16-slot array, all zero, with both cursors at 0: the initial, empty queue |
| `SdlInput.KeyQueue.AddKeyToQueue` | doomgeneric/doomgeneric_sdl.c:68-77 | the write cursor becomes (old + 1) % 16; only the slot at the old write cursor changes, to the packed translated key; the read cursor is unchanged |
| `SdlInput.KeyQueue.GetKey` | doomgeneric/doomgeneric_sdl.c:105-124 | returns 0 and changes nothing when the cursors are equal; otherwise returns 1 with the unpacked slot at the read cursor, and advances that cursor to (old + 1) % 16; the array and the write cursor are unchanged |
| `SdlInput.KeyQueue.EventLoop` | doomgeneric/doomgeneric_sdl.c:79-103 | the queue ends as the value model's event loop leaves it: key-downs with pressed 1, key-ups with pressed 0, in event order |

## Left out

- SDL calls (`SDL_CreateWindow`, `SDL_CreateRenderer`, `SDL_PollEvent`, `SDL_Delay`, `SDL_GetTicks`, `SDL_SetWindowTitle`): foreign I/O with no logic to verify. Polled events are a `seq<Event>` parameter, and `DG_SleepMs`, `DG_GetTicksMs` and `DG_SetWindowTitle` are not modelled.
- `DG_Init`'s window and renderer creation, its failure exit and the `scale` global: only the memset of the key queue is modelled, in `Initial` and the `KeyQueue` constructor.
- `DG_Destroy` and the quit and window-close branches of `_event_loop`: they release resources and call `exit`. `Event` has no such events, so `OtherEvent` stands only for events that enqueue nothing.
- `DG_DrawFrame`: a per-pixel loop that hands each colour to SDL drawing calls, with no logic of its own.
- Doomoji's emoji-tile renderer is not part of `doomgeneric_sdl.c` and is not modelled.
- The numeric values of `SDLK_*` and `KEY_*`: their headers are not part of this model. They are abstract `KeyTable` parameters, constrained only by `KeyTable.Valid()`.
- `SdlInput.KeyQueue.AddKeyToQueue` and `KeyQueueModel.Pack` require `0 <= pressed < 0x800000`. Outside that range `pressed << 8` on a 32-bit `int` is undefined behaviour. The only callers pass 0 and 1.
