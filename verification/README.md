# gglib, modelled in Dafny

gglib is a small retained-mode GUI toolkit for Ruby game backends. Widgets live in
nested Containers inside one MainWindow. They tell each other about changes through a
publish/subscribe Publisher, and they record which of their attributes need redrawing
through the Volatile mixin. Each Container positions its children with a Layout. The
window moves the focus, activity and drags as the cursor and the mouse buttons change.
A widget is drawn by a renderer that its Theme, image or colour chooses.

This project models that core as immutable Dafny datatypes and pure functions:

- **The Publisher** (`Events`): an event's subscriptions are a list, and modifiers filter
  the handlers that get called.
- **The Volatile mixin** (`Volatile`): a `Tracker` records the damage flag, the
  `unchecked`/`unreported` depths, and every `:modified` event it publishes.
- **Widgets** (`Widgets`): a widget's box, flags, style and tracker.
- **The widget tree** (`Containers`): a store `map<Id, Widget>`. Containers hold child id
  lists. CompoundWidgets hold an internal container.
- **The four layouts** (`Layouts`).
- **The MainWindow** (`Window`): the focus, active and drag slots, the cursor, and the
  callbacks it sends.
- **Styles, themes and renderers** (`Styles`, `Themes`).
- **Geometry** (`Primitives`): text placement and the nine-cell grid.
- **Other pieces**: `Enums` models Enumeration, `Mouse` the Cursor. `Button`, `Radio`,
  `Label`, `LineEdit` and `Scroll` model the widgets of the same names.

Each function's contract states what the operation promises. Most operations also have
a lemma that ties them to an inverse, an invariant, an independent reference definition,
or a sibling operation they must agree with. Where the code does not do what
its comments or neighbours evidently intend, both the code as written and the corrected
behaviour are modelled. The corrected one is what the rest of the model uses (see
Findings).

Handlers are Ruby blocks and cannot be inspected. The model names each subscription by
a `HandlerId`, so `publish` returns the handlers it calls, in order. A widget's own
reactions to the callbacks the window sends are modelled where the widget defines them
(Button, Label, LineEdit).

## Model

| member | source | states |
|---|---|---|
| Events.Subscribe | lib/gglib/event.rb:38-43 | The new subscription goes at the end of the event's list; other events are untouched; the returned handle names the event and the handle name. |
| Events.On | lib/gglib/event.rb:47-49 | `on` is `subscribe` under the empty handle name. |
| Events.UnsubscribeAsWritten | lib/gglib/event.rb:53-57 | As written, `unsubscribe` leaves the subscription table unchanged. |
| Events.Unsubscribe | lib/gglib/event.rb:53-57 | Every copy of the handle's subscription is removed from its event; the order of the rest is kept; other events are untouched. |
| Events.Without | lib/gglib/event.rb:54 | `Array#delete` drops every copy of the element and keeps each other element as often as before, as a subsequence of the input. |
| Events.AllPresent | lib/gglib/event.rb:68-75 | The membership loop answers true exactly when every modifier occurs among the arguments. |
| Events.Dispatch | lib/gglib/event.rb:64-77 | The handlers called are exactly the subscriptions that fire, and they come out as a subsequence of the subscriptions' handlers, so in subscription order. |
| Events.DispatchInOrder | lib/gglib/event.rb:64-77 | Publishing over two runs of subscriptions calls the first run's handlers, then the second's. |
| Events.DispatchOne | lib/gglib/event.rb:64-77 | One subscription calls its handler exactly when it fires; with `DispatchInOrder` this fixes the whole call order. |
| Events.Publish | lib/gglib/event.rb:62-79 | A handler is called exactly when its subscription has no more modifiers than there are arguments and each modifier is among them; an unsubscribed event calls nothing. |
| Events.SignalEvent | lib/gglib/event.rb:83-85 | `signal` calls the same handlers `publish` would for its argument list: those whose modifiers fit and are present, and nothing for an unsubscribed event. |
| Events.PublishAfterSubscribe | lib/gglib/event.rb:38-79 | A new subscription is called after every earlier one, and only when its modifiers are present. |
| Events.LongModifiersNeverFire | lib/gglib/event.rb:67 | A handler with more modifiers than arguments is never called, even when each modifier is present. |
| Events.RepeatedModifierNeedsRoom | lib/gglib/event.rb:67-75 | For any modifier `a`, a subscription on `[a, a]` is not called with `[a]` but is with `a` and any second argument: the length test is not implied by membership. |
| Events.PublishIgnoresArgumentOrder | lib/gglib/event.rb:62-79 | Permuting the arguments calls the same handlers in the same order. |
| Events.UnsubscribeAsWrittenKeepsHandler | lib/gglib/event.rb:53-57 | For any table, event, handle name, modifiers and handler: after subscribing and then "unsubscribing" as written, publishing with arguments that fire the handler still calls it, after the handlers that were there before; the corrected removal calls only those earlier handlers. |
| Events.UnsubscribeUndoesSubscribe | lib/gglib/event.rb:38-57 | Unsubscribing the returned handle restores the event's handler list as it was before `subscribe`. |
| Volatile.Emit | lib/gglib/event.rb:83-85 | Signalling appends the event to the tracker's published events and changes nothing else. |
| Volatile.Damage | lib/gglib/util.rb:83-90 | Outside `unchecked` the flag is set; only outside both scopes is `:modified` with the region published; the returned value is the flag. |
| Volatile.ClearDamage | lib/gglib/util.rb:92-95 | The flag is cleared and nothing is published. |
| Volatile.RunRestoresDepths | lib/gglib/util.rb:56-81 | Every block of nested `unchecked`/`unreported` scopes leaves both depths and the switches as it found them. |
| Volatile.StepRestoresDepths | lib/gglib/util.rb:56-81 | Each scope restores its own depth counter on exit. |
| Volatile.QuietRun | lib/gglib/util.rb:56-90 | Inside either scope nothing is published; inside `unchecked` nothing is flagged. |
| Volatile.UncheckedIsSilent | lib/gglib/util.rb:56-69 | An `unchecked` block neither publishes nor sets the damage flag. |
| Volatile.UnreportedIsSilent | lib/gglib/util.rb:72-81 | An `unreported` block publishes nothing. |
| Volatile.UnreportedStillFlags | lib/gglib/util.rb:72-90 | Damage inside `unreported` but outside `unchecked` still sets the flag. |
| Volatile.AssignVolatile | lib/gglib/util.rb:9-35 | An equal value changes nothing; a new one damages the attribute's name, is stored, and is forwarded from when it is itself Volatile. |
| Volatile.AssignVolatileSettles | lib/gglib/util.rb:9-35 | Re-assigning the value just stored returns at once; assigning the old value back damages the attribute a second time. |
| Volatile.GetField | lib/gglib/util.rb:122-125 | A missing field reads as nil; a present one gives its value. |
| Volatile.SetField | lib/gglib/util.rb:117-120 | The field then reads back as the value set, other fields are unchanged, and the value is returned. |
| Volatile.DeleteField | lib/gglib/util.rb:112-115 | The field is gone afterwards, its old value (or nil) is returned, and other fields are unchanged. |
| Volatile.StringAndSymbolKeysAgree | lib/gglib/util.rb:106-126 | A string key and a symbol key of the same name address the same field. |
| Styles.NewColor | lib/gglib/style.rb:38-87 | nil gives opaque white (255 on every channel), an integer up to 255 is the red channel beside the given green, blue and alpha, a larger integer also gives opaque white, an array gives its channels with alpha defaulting to 255, and a Color is copied. |
| Styles.ArrayFormMatchesChannels | lib/gglib/style.rb:45-62 | The array form and the channel form agree, and a three-element array is opaque. |
| Styles.WrappingIsIdempotent | lib/gglib/style.rb:67-92 | Wrapping a Color copies it, so wrapping twice changes nothing. |
| Styles.NewSides | lib/gglib/style.rb:121-128 | One value sets all four sides; otherwise the four values are taken in CSS order. |
| Styles.SetSidesAsWritten | lib/gglib/style.rb:139-150 | As written, `set` with one value sets only top and right, and leaves bottom and left nil. |
| Styles.SetSides | lib/gglib/style.rb:139-150 | One value sets all sides; otherwise each given side is replaced and each nil side kept. |
| Styles.SetAgreesWithNew | lib/gglib/style.rb:121-150 | `set` agrees with the constructor given the same values; the as-written one-value form does not. |
| Styles.NewStyle | lib/gglib/style.rb:241-256 | A new style has no theme, image, colour or owner; setting padding, margin and font through their volatile setters has damaged it and signalled `:modified` for each, in that order. |
| Styles.InstallRenderer | lib/gglib/style.rb:281-291 | The renderer is installed and `:modified, :renderer` is signalled. |
| Styles.UnsetTheme | lib/gglib/style.rb:293-297 | The theme is cleared and nothing else changes. |
| Styles.UnsetImage | lib/gglib/style.rb:299-303 | The image is cleared and nothing else changes. |
| Styles.UnsetColor | lib/gglib/style.rb:305-309 | The colour is cleared and nothing else changes. |
| Styles.SetRenderer | lib/gglib/style.rb:312-317 | A renderer set directly leaves no theme, image or colour behind. |
| Styles.SetTheme | lib/gglib/style.rb:319-324 | The theme becomes the only source; with an owner its renderer is installed; a nil theme with an owner raises. |
| Styles.SetImage | lib/gglib/style.rb:326-333 | The image becomes the only source, drawn by an auto-sizing image renderer. |
| Styles.SetColor | lib/gglib/style.rb:335-340 | nil on a nil colour, or the very Color object held, returns at once; any other value becomes the only source, drawn by a solid renderer, and signals. |
| Styles.ColorAssignmentIsByIdentity | lib/gglib/util.rb:16-17 | A fresh style ignores `color = nil`; the held Color object is ignored, but a distinct Color with the same channels replaces it and signals. |
| Styles.SetWidget | lib/gglib/style.rb:363-369 | Attaching an owner applies a theme chosen earlier and records the owner. |
| Styles.SettersKeepOneSource | lib/gglib/style.rb:312-340 | Every setter keeps at most one of theme, image and colour set; a setter that changes anything leaves exactly its own set. |
| Styles.ThemeBeforeOrAfterOwner | lib/gglib/style.rb:319-369 | A theme set before the owner is attached ends with the same renderer as one set after. |
| Primitives.MoveX | lib/gglib/primatives.rb:35-39 | The left edge moves to the value and the width is kept. |
| Primitives.MoveY | lib/gglib/primatives.rb:41-45 | The top edge moves to the value and the height is kept. |
| Primitives.MovesCompose | lib/gglib/primatives.rb:35-45 | Moving back restores the rectangle, and two moves are one. |
| Primitives.PlaceLines | lib/gglib/primatives.rb:185-205 | One position per line: line `i` sits `i` steps below the first, at the x its alignment gives for its width. |
| Primitives.Pass2 | lib/gglib/primatives.rb:159-207 | No lines give no boxes; otherwise each line is aligned in the padded box and the block is aligned vertically. |
| Primitives.Pass2Alignment | lib/gglib/primatives.rb:159-207 | The block is exactly its computed height; top alignment starts at the inner top, bottom alignment ends at the inner bottom, and middle alignment splits the gaps to within a pixel. |
| Primitives.Cell | lib/gglib/primatives.rb:325-330 | A resized cell spans the given corner and size. |
| Primitives.CalculateDimensions | lib/gglib/primatives.rb:332-463 | Without scaling, each cell is placed against its left and upper neighbours. |
| Primitives.CellsTileInner | lib/gglib/primatives.rb:332-463 | The nine cells tile the inner rectangle with no gap or overlap. |
| Primitives.NaturalSizeFitsCenter | lib/gglib/primatives.rb:299-463 | A grid laid out at its natural size gives the centre cell its natural size. |
| Primitives.SetBox | lib/gglib/primatives.rb:248-274 | A changed rectangle marks the grid dirty; an equal one changes nothing. |
| Primitives.SetMargin | lib/gglib/primatives.rb:248-274 | Changed margins mark the grid dirty; equal ones change nothing. |
| Primitives.DrawGrid | lib/gglib/primatives.rb:307-322 | Drawing recalculates only a dirty grid and leaves it clean with fresh cells. |
| Primitives.DrawIsIdempotent | lib/gglib/primatives.rb:307-322 | Drawing twice is drawing once. |
| Themes.RendererFor | lib/gglib/theme.rb:25-30 | `:invisible` gets no renderer; a class with its own entry gets that; otherwise `:default`'s. |
| Themes.RendererForIsLocal | lib/gglib/theme.rb:25-30 | Adding a renderer for a class other than `:default` changes the choice for that class only; adding one for `:default` also gives it to every class without its own entry, except `:invisible`. |
| Themes.SetBackend | lib/gglib/theme.rb:48-53 | The primitives are configured only for a new non-nil backend, and the backend is always stored. |
| Themes.NewRenderer | lib/gglib/theme.rb:39-46 | A new renderer takes the default window's backend, configured, when there is one. |
| Themes.NewRendererIsSettled | lib/gglib/theme.rb:39-53 | Assigning a new renderer's backend again changes nothing, and it draws exactly when a default window backend existed and the widget is in a window. |
| Themes.SetBackendIdempotent | lib/gglib/theme.rb:48-53 | Setting the same backend twice configures no more than setting it once. |
| Themes.ChooseGrid | lib/gglib/theme.rb:268-279 | The grid drawn is that of the first state in priority order that has a grid and holds, else `:enabled`; the missing cases raise. |
| Themes.ChoiceIsHighestPriority | lib/gglib/theme.rb:268-279 | No state of higher priority that has a grid holds; `:enabled` is drawn only when no state holds. |
| Themes.DownGridNeedsButton | lib/gglib/theme.rb:268-279 | Only a Button can be drawn by a renderer with a `:down` grid, unless it is disabled and a `:disabled` grid exists. |
| Themes.Shorthand | lib/gglib/theme.rb:331-344 | No value gives zeros, one value goes to every side, and otherwise the values are kept in order. |
| Themes.ShorthandMatchesFourSided | lib/gglib/theme.rb:331-344 | Given a first value, the shorthand spreads values exactly as FourSidedStyle does. |
| Themes.Grid9Renderer | lib/gglib/theme.rb:308-319 | The array elements 0 to 3 become top, right, bottom and left, nil past the end. |
| Themes.Grid9FromShorthand | lib/gglib/theme.rb:308-344 | A renderer built from the shorthands has the sides the shorthands describe. |
| Themes.GridSuggestedSize | lib/gglib/theme.rb:242-258 | The suggestion is the `:enabled` grid's natural size with the renderer's margins applied. |
| Themes.TextArea | lib/gglib/theme.rb:286-291 | The text goes in the centre cell less the padding. |
| Themes.SuggestedSizeGivesNaturalCenter | lib/gglib/theme.rb:242-291 | A widget sized by its suggestion gets the centre image's natural size plus padding as its text area. |
| Enums.Capitalize | lib/gglib/enum.rb:17 | The first character is upper-cased, the rest lower-cased, and the length is kept. |
| Enums.Split | lib/gglib/enum.rb:16 | There is always at least one field, and no field holds an underscore. |
| Enums.SplitJoinRoundTrip | lib/gglib/enum.rb:16 | Joining the fields with underscores gives back the string: splitting loses nothing. |
| Enums.CamelCaseMatchesReference | lib/gglib/enum.rb:15-19 | Split, capitalize and join is the character rule: underscores vanish, a word's first character is upper-cased and the others lower-cased. |
| Enums.ReferenceDropsUnderscores | lib/gglib/enum.rb:15-19 | The CamelCase name is as long as the element minus its underscores. |
| Enums.ConstName | lib/gglib/enum.rb:12-19 | An upper-case element is its own constant, anything else gets its CamelCase; an empty or invalid name raises. |
| Enums.SnakeCaseJoinsWords | lib/gglib/enum.rb:15-19 | Two lower-case words joined by an underscore (as in `:mouse_up`) give the two words with their first letters upper-cased and the underscore gone (`MouseUp`). |
| Enums.LeadingDigitIsRefused | lib/gglib/enum.rb:12-19 | Every element that starts with a digit makes `const_set` raise NameError. |
| Enums.DefineConstants | lib/gglib/enum.rb:11-21 | Each element defines its constant in order, a later duplicate overwriting an earlier one; an invalid name raises. |
| Enums.NewEnumeration | lib/gglib/enum.rb:7-22 | A single argument is the element list; several are the elements; the elements are kept in order with no synonyms. |
| Enums.NewSucceedsOnValidNames | lib/gglib/enum.rb:7-22 | Validly named elements always build an enumeration. |
| Enums.Alias | lib/gglib/enum.rb:28-32 | Only an element can be aliased; the alias is returned and recorded. |
| Enums.ValueOf | lib/gglib/enum.rb:39-43 | A synonym gives its element, an element gives nil, and anything else comes back unchanged. |
| Enums.Each | lib/gglib/enum.rb:45-49 | Iteration yields the elements in order, without synonyms. |
| Enums.AliasThenLookup | lib/gglib/enum.rb:28-49 | After aliasing, the alias is included and looks up to its element; other answers and iteration are unchanged. |
| Enums.Includes | lib/gglib/enum.rb:34-37 | An item is included exactly when it is a synonym or looks up to nil (an element); an item that is not included looks up to itself. |
| Enums.IncludesAndValueOf | lib/gglib/enum.rb:34-43 | An included non-synonym is an element and looks up to nil; an excluded item looks up to itself. |
| Enums.ClickIsMouseUp | lib/gglib/event.rb:3-17 | In the Events enumeration `:click` stands for `:mouse_up`. |
| Mouse.NewCursor | lib/gglib/mouse.rb:29-36 | A new cursor is enabled, visible, at the origin, and remembers the window it was made for. |
| Mouse.Enable | lib/gglib/mouse.rb:64-66 | The cursor is enabled and nothing else changes. |
| Mouse.Disable | lib/gglib/mouse.rb:68-70 | The cursor is disabled and nothing else changes. |
| Mouse.SetDisabled | lib/gglib/mouse.rb:60-62 | `disabled?` then answers the value set. |
| Mouse.Hide | lib/gglib/mouse.rb:80-82 | The cursor is hidden and nothing else changes. |
| Mouse.Show | lib/gglib/mouse.rb:84-86 | The cursor is shown and nothing else changes. |
| Mouse.SetHiddenAsWritten | lib/gglib/mouse.rb:76-78 | As written, the cursor always ends visible. |
| Mouse.SetHidden | lib/gglib/mouse.rb:76-78 | `hidden?` then answers the value set. |
| Mouse.SetHiddenAsWrittenDoesNotHide | lib/gglib/mouse.rb:76-78 | As written, `hidden = true` leaves a visible cursor visible. |
| Mouse.MoveAsWritten | lib/gglib/mouse.rb:46-50 | As written, every `move` raises. |
| Mouse.Move | lib/gglib/mouse.rb:46-50 | The cursor goes to the given point and nothing else changes. |
| Mouse.Over | lib/gglib/mouse.rb:88-90 | The cursor is over a widget exactly when it lies in the half-open box from the top-left corner to the bottom-right corner, so only a widget with width and height can be hit. |
| Mouse.FlagSettersAgree | lib/gglib/mouse.rb:60-86 | `disabled=` chooses between `disable` and `enable`, the intended `hidden=` between `hide` and `show`, and each plain setter undoes the other. |
| Mouse.OverIsHalfOpen | lib/gglib/mouse.rb:88-90 | The left and top edges hit; the right and bottom edges miss. |
| Mouse.EmptyWidgetNeverHit | lib/gglib/mouse.rb:88-90 | A widget without width or height is never under the cursor. |
| Widgets.NewWidget | lib/gglib/widget.rb:263-279 | A new widget is an empty box at the origin: enabled, visible, activatable, auto-sized, in no container. |
| Widgets.ReportsCompose | lib/gglib/util.rb:83-90 | Two reported operations in a row report the concatenation of their events. |
| Widgets.Mark | lib/gglib/util.rb:83-90 | Damage reports exactly the region's `:modified` event and leaves the widget otherwise unchanged. |
| Widgets.SetAutoSize | lib/gglib/widget.rb:285-290 | Both axes take the value and `:auto_size` is always damaged. |
| Widgets.AutoSizeMatchesAxisSetters | lib/gglib/widget.rb:285-290 | `auto_size=` reaches the same widget as `auto_size_width=` then `auto_size_height=`, but reports one `:auto_size` where those report each axis that changed. |
| Widgets.SetX | lib/gglib/widget.rb:308-313 | The box is translated so its left edge is the value; the size and the auto-size flags are kept. |
| Widgets.SetY | lib/gglib/widget.rb:315-320 | The box is translated so its top edge is the value; the size and the auto-size flags are kept. |
| Widgets.Move | lib/gglib/widget.rb:362-367 | The corner goes to the point and the size is kept. |
| Widgets.SetWidth | lib/gglib/widget.rb:348-352 | The width becomes the value, `x1` is kept, width auto-sizing is off, and `:width` is damaged. |
| Widgets.SetHeight | lib/gglib/widget.rb:342-346 | The height becomes the value, `y1` is kept, height auto-sizing is off, and `:height` is damaged. |
| Widgets.Resize | lib/gglib/widget.rb:380-384 | The size becomes the values with the corner kept and auto-sizing off. |
| Widgets.MoveAndResizeCommute | lib/gglib/widget.rb:362-384 | Moving keeps the size and resizing keeps the corner, so the two commute on the box. |
| Widgets.SetCoord | lib/gglib/widget.rb:322-340 | An equal value is a no-op; otherwise only that coordinate moves and its axis stops auto-sizing. |
| Widgets.SetRegion | lib/gglib/widget.rb:394-400 | All four coordinates are set, both axes stop auto-sizing, and `:region` is damaged once. |
| Widgets.SetRegionMatchesCornerSetters | lib/gglib/widget.rb:322-400 | `set_region` reaches the same box as the corner setters, but turns auto-sizing off even on an unchanged axis. |
| Widgets.SetEnabled | lib/gglib/widget.rb:410-413 | `disabled?` then answers the negation; only a change damages `:enabled`. |
| Widgets.SetDisabled | lib/gglib/widget.rb:415-418 | `disabled?` then answers the value set. |
| Widgets.Enable | lib/gglib/widget.rb:424-427 | The widget is enabled and `:enabled` is damaged even when nothing changes. |
| Widgets.Disable | lib/gglib/widget.rb:433-436 | The widget is disabled and `:enabled` is damaged even when nothing changes. |
| Widgets.EnabledSettersAgree | lib/gglib/widget.rb:410-436 | `disabled=` is `enabled=` of the negation and setting twice damages once; `enable`/`disable` agree on the state but always damage. |
| Widgets.SetVisible | lib/gglib/widget.rb:540-543 | `hidden?` then answers the negation; only a change damages `:visible`. |
| Widgets.SetHiddenAsWritten | lib/gglib/widget.rb:545-548 | As written, the widget always ends visible. |
| Widgets.SetHidden | lib/gglib/widget.rb:545-548 | `hidden?` then answers the value set. |
| Widgets.Hide | lib/gglib/widget.rb:551-554 | The widget ends hidden; only a visible one is damaged. |
| Widgets.Show | lib/gglib/widget.rb:557-560 | The widget ends visible; only a hidden one is damaged. |
| Widgets.VisibilitySettersAgree | lib/gglib/widget.rb:540-560 | `hide`, `show` and `hidden=` are `visible=` in disguise, and showing undoes hiding. |
| Widgets.SetHiddenAsWrittenDoesNotHide | lib/gglib/widget.rb:545-548 | As written, `hidden = true` damages a visible widget yet leaves it visible. |
| Widgets.Float | lib/gglib/widget.rb:599-603 | The layouts stop positioning the widget and `:floating` is damaged. |
| Widgets.Snap | lib/gglib/widget.rb:611-615 | The layouts position the widget again and `:floating` is damaged. |
| Widgets.SnapUndoesFloat | lib/gglib/widget.rb:599-615 | `snap` undoes `float` on everything but the tracker. |
| Widgets.Notify | lib/gglib/widget.rb:509-530 | A callback damages `:focused` or `:active` and then signals the event itself. |
| Widgets.Draw | lib/gglib/widget.rb:635-644 | A hidden widget is untouched; a visible one is rendered unless it is throttled and undamaged; drawing clears the damage. |
| Widgets.RedrawIsThrottled | lib/gglib/widget.rb:635-644 | A second draw in a throttling window skips the renderer, while an unthrottled window draws again. |
| Widgets.ConfigureRenderer | lib/gglib/style.rb:342-361 | Each auto-sized axis takes the suggestion and stays auto-sized; nothing is reported. |
| Widgets.ConfigureIsStable | lib/gglib/style.rb:342-361 | With the base renderer's suggestion nothing moves, and configuring twice gives the box of once. |
| Widgets.SetContainer | lib/gglib/widget.rb:568-573 | The widget takes the parent and the parent's window, and the renderer is configured. |
| Widgets.UnsetContainer | lib/gglib/widget.rb:576-584 | Only the current parent can detach the widget, leaving it with no parent or window. |
| Widgets.UnsetUndoesSet | lib/gglib/widget.rb:568-584 | Detaching from the container just attached to succeeds; any other container is refused. |
| Containers.Reach | lib/gglib/container.rb:308-368 | Only widgets of the store are reached, and a widget of the store with fuel left reaches itself. |
| Containers.Attach | lib/gglib/container.rb:308-317 | Every widget reached gets the window, the widget gets the parent (unless it is among its own descendants), and nothing outside the reach changes. |
| Containers.Add | lib/gglib/container.rb:62-69 | The widget is appended as a child, forwards its `:modified` events to the container, and is attached; the store keeps its ids. |
| Containers.Remove | lib/gglib/container.rb:97-105 | Every occurrence leaves the child list, the forwarding handler is dropped, and the widget is detached; a non-child is refused. |
| Containers.RemoveUndoesAdd | lib/gglib/container.rb:62-105 | Removing a widget just added restores the child list and the widget's handlers and leaves it without a parent. |
| Containers.ClearAsWritten | lib/gglib/container.rb:84-90 | As written, the children are detached but the child list is kept, and each child keeps its forwarding handler because `unsubscribe` does nothing. |
| Containers.Clear | lib/gglib/container.rb:84-90 | The child list is emptied, and every former child is detached and loses the forwarding handler `add` gave it. |
| Containers.ClearAsWrittenKeepsChildren | lib/gglib/container.rb:84-90 | As written, a cleared container still contains the children it has just detached. |
| Containers.RecursiveEach | lib/gglib/container.rb:188-198 | Yields each child, followed by that child's own descendants when it is a Container. |
| Containers.RecursiveEachIsPreorder | lib/gglib/container.rb:188-198 | Each child comes right after everything yielded for earlier siblings, and is followed by its own descendants. |
| Containers.RecursiveContainsMatchesEach | lib/gglib/container.rb:159-198 | The corrected `recursive_contains?` agrees with `recursive_each` on every non-Container widget. |
| Containers.Search | lib/gglib/container.rb:159-168 | The corrected search always finds a direct child that is not a Container; without fuel to enter nested Containers it finds exactly such direct children. |
| Containers.RecursiveContains | lib/gglib/container.rb:159-168 | The corrected `recursive_contains?` finds every direct non-Container child, and with no fuel compares only the direct children. |
| Containers.SearchMatchesPreorder | lib/gglib/container.rb:159-168 | A non-Container widget is found exactly when the pre-order traversal yields it. |
| Containers.RecursiveContainsAsWritten | lib/gglib/container.rb:159-168 | As written, the scan raises NoMethodError exactly when a Container child comes before any child equal to the widget, answers true exactly when the widget is a non-Container child with no Container before it, and otherwise answers false. |
| Containers.RecursiveContainsAsWrittenOnFlatLists | lib/gglib/container.rb:159-168 | Without nested Containers the written code answers correctly. |
| Containers.RecursiveContainsAsWrittenRaises | lib/gglib/container.rb:162 | Whenever a Container child comes before the widget and holds it, the written code raises while the corrected search finds it. |
| Containers.SetZ | lib/gglib/container.rb:71-79 | An auto-z Container shifts each reached widget once per path by the change; the widget takes the value. |
| Containers.ShiftAll | lib/gglib/container.rb:75-77 | Shifting children adds the delta to each reached widget once per path. |
| Containers.SetZPreservesOrder | lib/gglib/container.rb:71-79 | Children reached equally often keep their z distance, so their stacking order is unchanged. |
| Containers.LowestZ | lib/gglib/container.rb:218-226 | The result is at most 0 and at most every child's z, and it is 0 or one of those z. |
| Containers.HighestZ | lib/gglib/container.rb:204-212 | The result is at least 0 and at least every child's z, and it is 0 or one of those z. |
| Containers.SendChildToBack | lib/gglib/container.rb:218-226 | A child of the container goes 0.1 below the lowest z; any other widget is refused. |
| Containers.BringChildToFrontAsWritten | lib/gglib/container.rb:204-212 | As written, the child goes 0.1 above the lowest z. |
| Containers.BringChildToFront | lib/gglib/container.rb:204-212 | A child of the container goes 0.1 above the highest z; any other widget is refused. |
| Containers.BackAndFrontOrderSiblings | lib/gglib/container.rb:204-226 | Sent to the back, a child is below every sibling; brought to the front, above every sibling; the siblings stay put. |
| Containers.BringChildToFrontAsWrittenStaysBehind | lib/gglib/container.rb:208 | As written, a non-Container child brought to the front lands 0.1 above the lowest z, so it ends at or below exactly the siblings whose z is at least that high; the corrected version puts it above every sibling, and no sibling moves. |
| Containers.ClipAsWritten | lib/gglib/container.rb:265-305 | As written, the vertical test compares the horizontal extent. |
| Containers.Clip | lib/gglib/container.rb:265-305 | It clips exactly when an axis with a Hide or Scroll policy overflows its padded edge, and then bounds that axis. |
| Containers.PassivePoliciesNeverClip | lib/gglib/container.rb:265-305 | Auto, Show and Stretch never clip. |
| Containers.ClipAsWrittenMissesTallContent | lib/gglib/container.rb:287 | As written, `clip` answers as if the content were as tall as it is wide. Under a vertical Hide or Scroll policy, content that passes the padded bottom only in height is left unbounded below, and content that passes it only in width is cut off. |
| Containers.CompoundDraw | lib/gglib/container.rb:386-394 | A damaged, auto-sizing compound gives its internal container its own box and z, then draws as a widget. |
| Containers.CompoundDrawIsStable | lib/gglib/container.rb:380-394 | Once drawn, drawing again leaves the internal container over the compound's box. |
| Layouts.FreeAlign | lib/gglib/layout.rb:15-47 | The extent is the largest right and bottom edges, each at least 0, and nothing moves. |
| Layouts.Follow | lib/gglib/layout.rb:62-93 | Every listed child becomes known, an unlisted one is untouched, and the running extent never shrinks. |
| Layouts.FollowMoves | lib/gglib/layout.rb:62-93 | A child listed once is translated by the displacement when it was known and left in place when new. |
| Layouts.FollowOnlyMoves | lib/gglib/layout.rb:62-93 | Following changes only boxes and keeps every size. |
| Layouts.RelativeAsWritten | lib/gglib/layout.rb:51-97 | As written, a known child listed once moves by the horizontal displacement on both axes, and the recorded position stays the first one. |
| Layouts.RelativeAlign | lib/gglib/layout.rb:51-97 | A known child listed once moves by exactly the container's displacement since the previous `align`, a new one stays; every listed child becomes known and the position is recorded. |
| Layouts.RelativeFirstAlign | lib/gglib/layout.rb:51-97 | The first `align` moves nothing and returns FreeLayout's extent. |
| Layouts.RelativeFollowsContainer | lib/gglib/layout.rb:51-97 | A known child moves by exactly the container's displacement. |
| Layouts.RelativeAsWrittenMoves | lib/gglib/layout.rb:51-97 | As written, a known child moves by the horizontal displacement on both axes. |
| Layouts.RelativeAsWrittenDrifts | lib/gglib/layout.rb:61 | As written, a container moved 10 to the right drags its children 10 down. |
| Layouts.RelativeAsWrittenNeverSettles | lib/gglib/layout.rb:51-97 | As written, a container that moved once drags its children again on every later `align`. |
| Layouts.AreaOf | lib/gglib/layout.rb:104-109 | The area is the container's box shrunk by its padding. |
| Layouts.VerticalAlign | lib/gglib/layout.rb:101-154 | No children give `[0, 0]`; otherwise the pen after stacking every non-floating child. |
| Layouts.VerticalOnlyMoves | lib/gglib/layout.rb:101-154 | The vertical layout only moves children and keeps sizes, margins and flags. |
| Layouts.VerticalIgnoresFloating | lib/gglib/layout.rb:113 | Floating children neither move nor advance the pen. |
| Layouts.VerticalSingleColumn | lib/gglib/layout.rb:114-151 | Without Auto overflow each child sits below the margin boxes of those before it, in one column. |
| Layouts.VerticalAutoStaysInside | lib/gglib/layout.rb:114-151 | With Auto overflow, children that each fit are wrapped into columns inside the padded top and bottom. |
| Layouts.VerticalAlignExtent | lib/gglib/layout.rb:101-154 | Without Auto overflow the extent is the padded left edge and the bottom of the stack. |
| Layouts.HorizontalAlign | lib/gglib/layout.rb:158-210 | No children give `[0, 0]`; otherwise the pen after the row of every child. |
| Layouts.HorizontalOnlyMoves | lib/gglib/layout.rb:158-210 | The horizontal layout only moves children and keeps sizes, margins and flags. |
| Layouts.HorizontalSingleRow | lib/gglib/layout.rb:170-207 | Without Auto overflow the layout keeps to one row and the pen ends right of every margin box. |
| Layouts.HorizontalSingleRowPlaces | lib/gglib/layout.rb:170-207 | Each non-floating child sits right of all earlier margin boxes, floating ones included. |
| Layouts.HorizontalAutoStaysInside | lib/gglib/layout.rb:170-207 | With Auto overflow, children that each fit are wrapped into rows inside the padded left and right. |
| Layouts.HorizontalAlignExtent | lib/gglib/layout.rb:158-210 | Without Auto overflow the extent is the end of the row and the padded top. |
| Window.NewMain | lib/gglib/window.rb:14-39 | The window is its own parent and window, focused and active, drags nothing, and covers the backend window. |
| Window.SetFocusedWidget | lib/gglib/window.rb:195-199 | The old focus hears blur, then the new one focus, then the slot changes. |
| Window.SetActiveWidget | lib/gglib/window.rb:201-205 | The old active widget is deactivated, the new one activated, then the slot changes. |
| Window.Focus | lib/gglib/widget.rb:487-490 | Afterwards the widget, and only it, is focused; an already focused widget changes nothing. |
| Window.Blur | lib/gglib/widget.rb:498-501 | A focused widget hands the focus to the window; otherwise nothing changes. |
| Window.Activate | lib/gglib/widget.rb:455-458 | An activatable widget ends active; the answer is whether it is activatable. |
| Window.Deactivate | lib/gglib/widget.rb:464-467 | An active widget hands activity to the window. |
| Window.SetActive | lib/gglib/widget.rb:442-449 | Asking for activity activates only an activatable widget; giving it up deactivates only an active one. |
| Window.FocusAndBlurNotifyOnce | lib/gglib/widget.rb:509-521 | Outside the volatile scopes, focusing a widget makes the old focus damage `:focused` once and signal `blur` and the new one damage `:focused` once and signal `focus`; blurring it again does the same with the widget and the window swapped. |
| Window.FocusThenBlur | lib/gglib/widget.rb:487-501 | Focus then blur returns the focus to the window, with the four callbacks in order. |
| Window.ActivateIdempotent | lib/gglib/widget.rb:455-458 | Activating twice is activating once. |
| Window.Scan | lib/gglib/window.rb:124-128 | The candidate's z never decreases, and the candidate only ever changes to an eligible child of the list. |
| Window.ScanIsHighest | lib/gglib/window.rb:124-128 | The scan ends at least as high as every eligible child, and keeps the candidate when every eligible child is lower. |
| Window.ScanPicksLastHighest | lib/gglib/window.rb:124-128 | The scan ends on the last eligible child of the highest z. |
| Window.FocusSearch | lib/gglib/window.rb:129-154 | The search descends from the window through Containers and CompoundWidgets, carrying the candidate. |
| Window.FocusSearchIgnoresTrackers | lib/gglib/window.rb:116-158 | The search reads boxes, flags, z and kinds, never the trackers. |
| Window.UpdateFocus | lib/gglib/window.rb:116-158 | The focus goes to the window or an enabled widget under an enabled cursor, and `focus` is called only on a change. |
| Window.UpdateFocusSettles | lib/gglib/window.rb:116-158 | A second `update_focus` with the cursor unmoved changes nothing. |
| Window.DisabledCursorFocusesWindow | lib/gglib/window.rb:116-158 | With the cursor disabled the window takes the focus. |
| Window.SignalFocused | lib/gglib/window.rb:87-92 | Signalling the focused widget appends exactly that one event to its published events and leaves every other widget, and every slot of the window, unchanged. |
| Window.PressLeft | lib/gglib/window.rb:79-85 | The focused widget becomes active, its published events end with `:mouse_down, :left, x, y` then `:mouse_drag, :start, x, y`, and it becomes the dragged widget of a drag anchored at the cursor; only trackers change in the store. |
| Window.ButtonDown | lib/gglib/window.rb:77-94 | The left button does what PressLeft states. The middle and right buttons append exactly `:mouse_down, :middle` or `:mouse_down, :right` to the focused widget. Any other button appends exactly `:button_down, button`. No other widget and no slot changes. |
| Window.ReleaseIn | lib/gglib/window.rb:99-101 | The focused widget gains exactly `:mouse_up, :left, x, y` and `:click, x, y`, followed by `:mouse_drag, :end, x, y` when it is also the dragged one. A different dragged widget gains exactly the `:mouse_drag, :end` event. Nobody else changes. |
| Window.ReleaseLeft | lib/gglib/window.rb:99-102 | With no dragged widget the release raises NoMethodError. Otherwise the events are those ReleaseIn states, the drag ends, and nothing else in the window changes. |
| Window.ButtonUp | lib/gglib/window.rb:96-110 | The left button does what ReleaseLeft states. The middle and right buttons append exactly `:mouse_up` with the button's name and the cursor to the focused widget. Any other button appends exactly `:button_up, button`. No button changes the focus, the active widget or the dragged widget. |
| Window.UpdateDrag | lib/gglib/window.rb:160-166 | While dragging, the dragged widget is sent the displacement from the anchor, which then moves to the cursor. |
| Window.DragReadyIsKept | lib/gglib/window.rb:77-166 | A drag in progress always has a widget to send its moves to. |
| Window.DragDisplacementsAdd | lib/gglib/window.rb:160-166 | Two updates' displacements add up to the whole movement since the anchor. |
| Window.PressThenUpdateSendsZero | lib/gglib/window.rb:77-166 | An update with the cursor where it pressed sends a zero displacement. |
| Window.UpdateAtAnchorSendsZero | lib/gglib/window.rb:160-166 | With the cursor still on the anchor, the dragged widget is sent `:mouse_drag, :continue, 0, 0` and `:drag, 0, 0`. |
| Window.SetDraggedWidget | lib/gglib/window.rb:207-218 | Only the dragged slot changes. It receives the first draggable widget or window on the way up from the given widget, the widget itself when it qualifies, and nil from nil. |
| Window.WalkUp | lib/gglib/window.rb:207-218 | Whatever the walk finds is draggable or is the window. |
| Window.WalkUpFindsFirstGrab | lib/gglib/window.rb:207-218 | The walk finds exactly the first draggable widget or window among the ancestors it climbs. |
| Window.FirstGrabIsFirst | lib/gglib/window.rb:207-218 | Nothing is found exactly when no ancestor can be grabbed; otherwise the one found can, and none before it could. |
| Window.WalkFromWindow | lib/gglib/window.rb:207-218 | Starting at the window finds the window. |
| Button.NewButton | lib/gglib/widgets/button.rb:13-38 | A new button is not down, and releases on blur unless it is draggable. |
| Button.React | lib/gglib/widgets/button.rb:17-34 | A left press sets down; a left release clears it and deactivates; a blur releases an undraggable pressed button; nothing else reacts. |
| Button.OtherMouseButtonsIgnored | lib/gglib/widgets/button.rb:17-25 | The middle and right buttons never press or release a Button. |
| Button.PressAndRelease | lib/gglib/widgets/button.rb:17-25 | Pressing makes a focused button active and down; releasing leaves it up with the window active. |
| Button.BlurReleasesUnlessDraggable | lib/gglib/widgets/button.rb:26-34 | A pressed button stays down after a blur exactly when it is draggable. |
| Button.IconOrigin | lib/gglib/widgets/button.rb:50 | The icon's offset is half the spare room on each axis, rounded down. |
| Button.PlaceIcon | lib/gglib/widgets/button.rb:46-55 | Only an icon that needs redrawing is moved, and its size is kept. |
| Button.IconIsCentred | lib/gglib/widgets/button.rb:49-52 | The margins are equal or the right (bottom) one is one larger, and an icon that fits stays inside. |
| Radio.NewRadioButton | lib/gglib/widgets/radio.rb:12-18 | A new button is unchecked and its value defaults to its text. |
| Radio.SetChecked | lib/gglib/widgets/radio.rb:8 | The button takes the value; only a change damages `:checked`. |
| Radio.Value | lib/gglib/widgets/radio.rb:49-52 | The group's value is the checked button's text, nil when none is checked. |
| Radio.FirstShowing | lib/gglib/widgets/radio.rb:54-64 | The result is the first RadioButton showing the value, or none when no button shows it. |
| Radio.SetValue | lib/gglib/widgets/radio.rb:54-64 | The first button showing the value becomes the checked one and the value is returned; with no such button nothing changes and nil is returned. |
| Radio.SetValueKeepsConsistent | lib/gglib/widgets/radio.rb:54-64 | Afterwards exactly the recorded button is checked, and every child keeps its text and value. |
| Radio.SetValuesKeepsConsistent | lib/gglib/widgets/radio.rb:54-64 | Any sequence of `value=` keeps the group consistent. |
| Radio.AtMostOneChecked | lib/gglib/widgets/radio.rb:54-64 | From nothing checked, at most one button is ever checked. |
| Radio.UnknownValueKeepsChoice | lib/gglib/widgets/radio.rb:54-64 | A value no button shows keeps the previous choice. |
| Label.NewLabel | lib/gglib/widgets/label.rb:9-19 | A new label has no owner. |
| Label.SetOwner | lib/gglib/widgets/label.rb:21-23 | The owner becomes the widget. |
| Label.UnsetOwner | lib/gglib/widgets/label.rb:25-27 | Only the current owner is forgotten. |
| Label.OwnerRoundTrip | lib/gglib/widgets/label.rb:21-27 | Unsetting the owner just set undoes it; unsetting another widget is ignored. |
| Label.Handler | lib/gglib/widgets/label.rb:13-18 | The owner, if any, ends focused. |
| Label.FocusAsWritten | lib/gglib/widgets/label.rb:13-15 | As written, the label ends focused even after its handler focused the owner. |
| Label.SetFocusedFirst | lib/gglib/window.rb:195-199 | With the slot assigned first, the callbacks and store are as before and the widget ends focused. |
| Label.Focus | lib/gglib/widgets/label.rb:13-15 | With the corrected order, focusing a label leaves its owner focused. |
| Label.FocusHandOffLost | lib/gglib/widgets/label.rb:13-15 | As written, the label keeps the focus although the last callback went to the owner; corrected, the owner ends focused, as a click gives it. |
| LineEdit.NewEdit | lib/gglib/widgets/line-edit.rb:15-61 | A new edit has empty text, caret and selection at 0, and the default blink rate. |
| LineEdit.Selection | lib/gglib/widgets/line-edit.rb:82-84 | The selection starts at the selection position and its signed length reaches the caret. |
| LineEdit.SetPositions | lib/gglib/widgets/line-edit.rb:91-97 | The caret and selection positions take the values; nothing else changes. |
| LineEdit.RubySlice | lib/gglib/widgets/line-edit.rb:75-77 | Ruby's `slice`: nil for a negative length or an out-of-range start, otherwise the run from the start, at most the length long. |
| LineEdit.SelectedText | lib/gglib/widgets/line-edit.rb:75-77 | A backward selection gives nil; otherwise the text is at most the selection's length. |
| LineEdit.SelectedTextIsBetween | lib/gglib/widgets/line-edit.rb:75-84 | A forward selection inside the text selects exactly the characters between its ends. |
| LineEdit.BackwardSelectionIsNil | lib/gglib/widgets/line-edit.rb:75-84 | A caret left of the selection start selects nothing. |
| LineEdit.NextCountdown | lib/gglib/widgets/line-edit.rb:42-47 | The countdown drops by one, and wraps to the blink rate instead of going negative. |
| LineEdit.Update | lib/gglib/widgets/line-edit.rb:37-48 | The backend's text and positions are adopted, `:text` is damaged only on change, and `:ibeam` only when the caret shows. |
| LineEdit.TicksCountDown | lib/gglib/widgets/line-edit.rb:42-47 | Steps that stay at or above zero count down one each. |
| LineEdit.TicksSplit | lib/gglib/widgets/line-edit.rb:42-47 | Counting down in two runs is counting down in one. |
| LineEdit.BlinkPeriod | lib/gglib/widgets/line-edit.rb:42-47 | The blink has period rate + 1 and never leaves [0, rate]. |
| LineEdit.CountdownStaysInRange | lib/gglib/widgets/line-edit.rb:37-48 | Each update keeps the countdown in [0, rate]. |
| LineEdit.DrawOverlay | lib/gglib/widgets/line-edit.rb:104-135 | The caret is drawn exactly when it should blink on and lies left of the right bound; the selection runs from its start to the caret, clamped. |
| LineEdit.SelectionSpansSelectedText | lib/gglib/widgets/line-edit.rb:75-135 | When the text measure adds up and nothing is clamped, the highlight is exactly as wide as the measured selected text. |
| Scroll.HalfOpen | lib/gglib/widgets/scroll.rb:35-45 | The stored bounds hold exactly the range's integers. |
| Scroll.SetRange | lib/gglib/widgets/scroll.rb:35-39 | The range bounds hold exactly its integers, and `:range` is always damaged. |
| Scroll.SetValue | lib/gglib/widgets/scroll.rb:41-45 | The value bounds hold exactly its integers, and `:value` is always damaged. |
| Scroll.InclusiveIsExclusivePlusOne | lib/gglib/widgets/scroll.rb:35-45 | `a..b` and `a...b+1` store the same bounds. |
| Scroll.CoveredMeansEveryPositionShown | lib/gglib/widgets/scroll.rb:140-146 | The grip is hidden exactly when every position of the range lies in the value. |
| Scroll.BarLengthAsWritten | lib/gglib/widgets/scroll.rb:148 | As written, the bar's height is used for every Scroll. |
| Scroll.BarLength | lib/gglib/widgets/scroll.rb:148 | A horizontal bar's width, otherwise its height. |
| Scroll.HorizontalBarLengthMisread | lib/gglib/widgets/scroll.rb:148 | As written, a horizontal Scroll whose bar is not square is scaled against the wrong side. |
| Scroll.SizeGripAsWritten | lib/gglib/widgets/scroll.rb:139-162 | As written: the grip is hidden exactly when the value covers the range; otherwise it is scaled by value over range along the bar's height, whatever the Scroll's type. |
| Scroll.SizeGripAsWrittenMisscales | lib/gglib/widgets/scroll.rb:148 | The written and the corrected `size_grip` hide the same grips and change the Scroll the same way. For any type other than the literal `horozontal`, they give different answers exactly for an uncovered horizontal Scroll whose bar is not square. |
| Scroll.SizeGrip | lib/gglib/widgets/scroll.rb:139-162 | Corrected: the grip is hidden exactly when the value covers the range; otherwise it is scaled by value over range along the bar's width for a horizontal Scroll and its height otherwise. |
| Scroll.DragGrip | lib/gglib/widgets/scroll.rb:166-179 | The grip moves along its axis by the displacement, clamped between the buttons using its current length, and keeps its size. |
| Scroll.ApplyGripSize | lib/gglib/widgets/scroll.rb:139-162 | A covered range hides the grip; otherwise the grip takes the computed length along the scrolling axis and keeps its start and other side. |
| Scroll.OnGripDrag | lib/gglib/widgets/scroll.rb:164-185 | The grip starts where the clamped move put it; `size_grip` then hides it (size kept) or gives it the computed length along the axis. |
| Scroll.DragStaysInTrack | lib/gglib/widgets/scroll.rb:139-185 | Every drag starts the grip inside the track, and one that stays inside moves it by exactly the displacement; the whole grip stays inside when the range is covered or the new length is no longer than the old. |
| Scroll.LongerGripOverhangs | lib/gglib/widgets/scroll.rb:164-185 | A grip pulled back against the increase button and then lengthened by `size_grip` overhangs the button by the added length. |
| Scroll.SetType | lib/gglib/widgets/scroll.rb:191-199 | The same type changes nothing; a new one is stored, damages `:type`, and rebuilds the parts. |
| Scroll.SetTypeIdempotent | lib/gglib/widgets/scroll.rb:191-199 | Setting the same type twice rebuilds at most once. |

## Left out

- Backends (Gosu, Rubygame), images, fonts and pixel output are outside the model. Text widths, font heights and window sizes are parameters.
- The text-wrapping pass `pass1` and SimpleText are outside the model. `Pass2` takes the measured widths of the lines as given.
- Floating point is left out:
  - FlexibleGrid's scaling branches (primatives.rb:351-379) are not modelled. `CalculateDimensions` covers the non-scaling case, which `NoScaling` names.
  - The Scroll grip's scale factor is not computed. `SizeGrip` returns its operands, and `OnGripDrag` takes the resulting grip length as a parameter.
  - Scroll velocity is not modelled.
- Containers.Reach: recursion through the widget store is bounded by a `fuel` argument. A nesting deeper than the fuel is not followed. The same applies to `Attach`, `Preorder`, `SetZ`, `FocusSearch` and `Ancestry`.
- Layouts.VerticalAlign: a child id outside the store is skipped. The source could not hold such a child. The same applies to the other layouts.
- Containers.Remove: uses the corrected `Unsubscribe`, so the forwarding handler leaves. As written it stays, because `unsubscribe` is empty and is passed the container's `object_id` as a handle name. `RemoveUndoesAdd` relies on the corrected removal. `ClearAsWritten` keeps the handler as written.
- Containers.SetZ: z is an exact `real`. Ruby keeps an Integer z until `bring_child_to_front` or `send_child_to_back` adds or subtracts 0.1, after which it is a binary Float, so sums of such steps are rounded there and not here.
- Containers.SetZPreservesOrder: proves the distances are kept exactly. With Float z, rounding in `child.z += delta` can shift two children by slightly different amounts.
- Containers.BringChildToFront: `max_z + 0.1` is exact here and a rounded Float in Ruby.
- Containers.SetZ: the count formula is stated only for widgets that are not themselves auto-z Containers. A Container reached twice is overwritten by its last `z=`.
- `Container#recursive_remove`, `Container#update` and `Container#draw` (layout, clip, then children) are outside the model. Their parts (the layouts, `Clip`, `Widgets.Draw`) are modelled.
- Handlers are opaque. Their ids are recorded, and the model does not run the other widgets' handlers during a nested notify. The exceptions are Button, Label and LineEdit, which are modelled where they react.
- Styles.NewColor: assumes every Integer is a `Fixnum`, which holds from Ruby 2.4 to 3.1. Before 2.4 an Integer too large for a Fixnum is a Bignum, takes the generic branch (style.rb:64) and becomes the red channel; from Ruby 3.2 `Fixnum` is undefined, so every argument other than nil raises NameError. The documented Float form `Color.new(0.5, …)` (style.rb:25-29) is not modelled, since channels here are integers, and neither are Gosu or Rubygame colour objects.
- Styles.InstallRenderer: `set_renderer` ends with `configure_renderer` (style.rb:342-361), which hands the renderer the owner's backend and resizes an auto-sized owner. That step acts on the widget, so it is modelled on the widget side as `Widgets.ConfigureRenderer` and not repeated inside the style.
- Button.NewButton: `Button#initialize` passes a theme class to `Widget#initialize`, which takes none. Scroll does the same. Those calls would raise, so the model starts from the state the constructor body sets up.
- Label.NewLabel: as written, `Label.new` cannot complete. The class body calls `theme_class :invisible` at class level, and no such class method exists (`theme_class` is an instance method of Widget), so loading label.rb raises NoMethodError. The bare `super` in `initialize` also passes the text to `Widget#initialize`, which takes no arguments. The model starts from the state the constructor body sets up.
- Radio.NewRadioButton: as written, radio.rb raises NoMethodError when it loads, because its class body calls `theme_class :radio_button` at class level. The model starts from the state `initialize` sets up.
- Radio.SetValue: `RadioGroup#initialize` never calls `super`, so `@children` is nil as written. `value=` is modelled over a given child list.
- `RadioGroup#add_option` and `#remove_option` name undefined variables, so they raise as written. They are not modelled.
- The Scroll readers `value` and `range` read `@value` and `@range`, which are never assigned, so they return nil. `SetRange` and `SetValue` model the stored bounds instead.
- Scroll's `init`, `repair_horizontal` and `repair_vertical` are not modelled part by part. They are counted as rebuilds. `repair_horizontal` reads `self.x` for the grip's y at scroll.rb:108.
- LineEdit's backend text input and clipboard handlers are outside the model. The text and the caret positions arrive as parameters of `Update`.
- Label.FocusAsWritten: excludes a label that owns itself. As written such a label re-enters `focus` without end.
- Widgets.NewWidget: a Container, and the MainWindow built by `Window.NewMain`, start from the plain widget state. `Container#initialize` (container.rb:36-45) first runs `self.layout = @@default_layout`, and `layout` is volatile (container.rb:324), so a real Container has already damaged `:layout` and published `:modified, :layout` to its empty event table. Its published events therefore begin with that one event, which the model leaves out, and the layout object is not stored on the widget: the layouts take it as the choice of function.
- Widgets.Move: the optional third argument `z` is not modelled. `move(x, y)` passes the current z back to `z=`, which changes nothing.
- `Widget#label=` and `Widget#style=` are not modelled beyond the style record.
- MainWindow's `visible=`, `hide`, `show`, `close`, `update` and `draw` are outside the model. `update` only calls the modelled `update_focus` and `update_drag`.
- Scroll.SizeGrip: uses the corrected bar length, the width for a horizontal Scroll. As written (scroll.rb:148) the type is compared with `:horozontal`, so the height is always used; that version is `Scroll.SizeGripAsWritten`. The rest of the model uses the corrected one.
- Enums.Upcase: case mapping covers ASCII letters only. Ruby's `capitalize` also maps other scripts.

## Findings

| source | as written | input that shows it | evidently intended | confidence | as-written member | corrected member |
|---|---|---|---|---|---|---|
| lib/gglib/event.rb:53-57 | `unsubscribe`'s body is commented out, so it does nothing | subscribe a handler, unsubscribe its handle, publish: the handler is still called | the handle's subscription leaves the event | not executed | Events.UnsubscribeAsWrittenKeepsHandler | Events.UnsubscribeUndoesSubscribe |
| lib/gglib/container.rb:84-90 | `clear` detaches every child but never empties `@children` | a container with one child, cleared: `contains?` still answers true | the child list becomes empty | not executed | Containers.ClearAsWrittenKeepsChildren | Containers.Clear |
| lib/gglib/container.rb:162 | the recursive call names a method that does not exist | a container whose first child is a Container holding the widget: `recursive_contains?` raises NoMethodError | the child Container is searched | not executed | Containers.RecursiveContainsAsWrittenRaises | Containers.SearchMatchesPreorder |
| lib/gglib/container.rb:208 | the loop keeps the minimum z | children at z 0 and 1: bringing the first to the front puts it at 0.1, below the second | 0.1 above the highest z | not executed | Containers.BringChildToFrontAsWrittenStaysBehind | Containers.BackAndFrontOrderSiblings |
| lib/gglib/container.rb:287 | the vertical overflow test reads `coords[0]` | Hide policy, content 10 wide and 1000 tall in a 100 by 100 box: not clipped | the vertical test reads `coords[1]` | not executed | Containers.ClipAsWrittenMissesTallContent | Containers.Clip |
| lib/gglib/layout.rb:61 | `deltay` is computed from `x1` | a container moved 10 right and 0 down drags its known children 10 down | `deltay` from `y1` | not executed | Layouts.RelativeAsWrittenDrifts | Layouts.RelativeAlign |
| lib/gglib/layout.rb:51-97 | the last position is recorded once and never updated | a container moved once drags its children again on every later `align` | the position is recorded after each `align` | not executed | Layouts.RelativeAsWrittenNeverSettles | Layouts.RelativeAlign |
| lib/gglib/widget.rb:545-548 | `hidden=` assigns `!@value`, which is `!nil` | `hidden = true` on a visible widget leaves it visible | visibility becomes `!value` | not executed | Widgets.SetHiddenAsWrittenDoesNotHide | Widgets.VisibilitySettersAgree |
| lib/gglib/mouse.rb:76-78 | `hidden=` assigns `!@value` | `hidden = true` leaves a visible cursor visible | the cursor hides | not executed | Mouse.SetHiddenAsWrittenDoesNotHide | Mouse.SetHidden |
| lib/gglib/mouse.rb:46-50 | `move` reads an undefined local `value` | any call `move(1, 2)` raises NameError | the cursor goes to (x, y) | not executed | Mouse.MoveAsWritten | Mouse.Move |
| lib/gglib/style.rb:143 | `@right, @bottom, @left = top` assigns `top` to `@right` only | `set(5)` leaves bottom and left nil | all four sides become 5 | not executed | Styles.SetAgreesWithNew | Styles.SetSides |
| lib/gglib/widgets/label.rb:13-15 | `set_focused_widget` assigns the slot after the label's `:focus` handler moved the focus on | a label owned by an unfocused widget gets the focus: the label, not the owner, ends focused | the owner ends focused | not executed | Label.FocusHandOffLost | Label.Focus |
| lib/gglib/widgets/scroll.rb:148 | the type is compared with the misspelt `:horozontal` | a horizontal Scroll with a 200 by 20 bar scales its grip against 20 | the bar's width for a horizontal Scroll | not executed | Scroll.HorizontalBarLengthMisread | Scroll.BarLength |
