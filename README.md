# TTDImagePicker: the checkable logic of the picker and cropper, in Dafny

TTDImagePicker is an iOS media picker and image cropper. Most of it is UIKit,
AVFoundation and CoreMotion glue. This project models the four pieces of it
that are plain sequential logic, and proves what they promise:

- **Bottom pager** (`Paging`, `bottom_pager.dfy`). `TTDBottomPager` shows its
  child view controllers one screen apart in a paging scroll view, with one tab
  menu item per controller. `BottomPager` is a class with the fields the source
  updates: `currentPage`, the menu items (tag and highlight), the delegate's
  calls, the layout constraints, the content width and the scroll offset. The
  screen width is a positive constructor parameter.
- **Aspect-ratio selector** (`CropAspect`, `crop_aspect_selector.dfy`).
  `CropAspectSelector` shows a button per preset ratio, tagged with the option's
  index plus 1000. Selecting an option highlights a button and then fires the
  ratio-changed and close callbacks, which are recorded in an event log. The
  ratio manager enters as its orientation flag, its ratio list and its original
  ratio item. `name(for:)` and `selectedRatio` are the functions `NameFor`,
  `RatioFor` and `CropAspectSelector.SelectedRatio`.
- **Duration label** (`DurationFormat`, `duration_format.dfy`).
  `TTDHelper.formattedStrigFrom` prints a whole number of seconds as "MM:SS".
  Swift's truncating `/` and `%` are written out (`TruncDiv`, `TruncRem`),
  because Dafny's are Euclidean. `Pad2` is the C conversion "%02d", including
  its handling of negative values. `ParseDuration` reads a label back.
- **Device orientation** (`DeviceOrientation`, `device_orientation.dfy`).
  `TTDDeviceOrientationHelper` classifies each accelerometer sample with a
  threshold chain at 0.6. It stores the result and schedules the handler only
  when the orientation changes. Acceleration is `real`, since it is only
  compared. `Run` and `Changes` fold the per-sample step over a run of samples.

`Wrappers` holds `Option`. `Counting` counts the elements that pass a test;
it is used for "exactly one item is highlighted".

Two Swift details shape the model:

- Swift does not run a class's own property observers inside that class's
  initializer. So `CropAspectSelector.init`'s assignment of `options.first`
  runs no `didSet`. The buttons keep the highlight `buttonForAspect` gave them
  by comparing each option with the manager's original ratio item, and no
  callback fires.
- The orientation handler is scheduled on the main queue. When the block runs,
  it reads `currentDeviceOrientation`, not the value that caused the change.
  `RunMainQueueBlock` models that.

## Model

| member | source | states |
|---|---|---|
| Paging.BottomPager.constructor | Sources/TTDImagePicker/Pages/Gallery/BottomPager/TTDBottomPager.swift:9-14 | the pager starts with no controllers or menu items, page 0 and no delegate |
| Paging.BottomPager.SetDelegate | Sources/TTDImagePicker/Pages/Gallery/BottomPager/TTDBottomPager.swift:9 | setting the weak delegate changes nothing else |
| Paging.BottomPager.SetControllers | Sources/TTDImagePicker/Pages/Gallery/BottomPager/TTDBottomPager.swift:10 | assigning the controllers runs reload; the menu stays at least as long as the controller list |
| Paging.BottomPager.Reload | Sources/TTDImagePicker/Pages/Gallery/BottomPager/TTDBottomPager.swift:42-77 | child k is constrained at x = k * width with one screen's width; the content width is count * width; one item tagged k is appended per controller and no existing item is removed; then item 0 is highlighted (which needs a non-empty menu) |
| Paging.BottomPager.LayOutChildren | Sources/TTDImagePicker/Pages/Gallery/BottomPager/TTDBottomPager.swift:44-57 | the first loop of reload adds, in controller order, a constraint placing child k at x = k * width with one screen's width |
| Paging.BottomPager.AppendTabs | Sources/TTDImagePicker/Pages/Gallery/BottomPager/TTDBottomPager.swift:63-72 | the second loop of reload appends one unhighlighted item per controller, tagged with its index, after the existing items |
| Paging.FirstReloadTabs | Sources/TTDImagePicker/Pages/Gallery/BottomPager/TTDBottomPager.swift:63-76 | the first reload leaves tab i tagged i and exactly one highlighted tab, the first |
| Paging.BottomPager.SelectPage | Sources/TTDImagePicker/Pages/Gallery/BottomPager/TTDBottomPager.swift:90-104 | an unchanged or out-of-range page changes nothing; otherwise the page becomes current, item i is highlighted iff i is the page, the delegate (when set) gets controllers[page] once, and the page stays within the controllers |
| Paging.HighlightOnlyExactlyOne | Sources/TTDImagePicker/Pages/Gallery/BottomPager/TTDBottomPager.swift:94-102 | after highlighting a page within the menu, exactly one item is highlighted, the page's |
| Paging.BottomPager.CurrentController | Sources/TTDImagePicker/Pages/Gallery/BottomPager/TTDBottomPager.swift:16-18 | when the page is in range, the current controller is one of the controllers |
| Paging.BottomPager.ShowPage | Sources/TTDImagePicker/Pages/Gallery/BottomPager/TTDBottomPager.swift:84-88 | the scroll offset becomes page * width even for the current page, then selectPage's guarded transition runs |
| Paging.BottomPager.TabTapped | Sources/TTDImagePicker/Pages/Gallery/BottomPager/TTDBottomPager.swift:79-82 | a tab tap shows the page named by the button's tag |
| Paging.BottomPager.ScrollViewWillEndDragging | Sources/TTDImagePicker/Pages/Gallery/BottomPager/TTDBottomPager.swift:30-40 | with a non-empty menu, the page the drag settles on is selected when it differs from the current page; otherwise nothing changes |
| Paging.BottomPager.ScrollViewDidScroll | Sources/TTDImagePicker/Pages/Gallery/BottomPager/TTDBottomPager.swift:26-28 | a scroll is forwarded to the delegate when one is set, and nothing else changes |
| Paging.BottomPager.StartOnPage | Sources/TTDImagePicker/Pages/Gallery/BottomPager/TTDBottomPager.swift:106-116 | sets the page with no range guard, scrolls there without animation (the delegate gets one scroll call when the offset moves), and leaves exactly the page's item highlighted; the page must index the menu items |
| CropAspect.CropAspectSelector.constructor | Sources/TTDImagePicker/Filters/Crop/Menu/CropAspectSelector.swift:53-62 | the selection is the first option, or the original ratio item when there are none; the buttons are highlighted against the original item; no callback fires |
| CropAspect.CropAspectSelector.SetupData | Sources/TTDImagePicker/Filters/Crop/Menu/CropAspectSelector.swift:89-97 | appends one button per option in option order, tagged idx + 1000 and titled with the option's name |
| CropAspect.ButtonsFor | Sources/TTDImagePicker/Filters/Crop/Menu/CropAspectSelector.swift:107-116 | each button carries its option's tag and its title for the orientation, and is highlighted iff its option equals the current selection |
| CropAspect.FirstIndexWithNameV | Sources/TTDImagePicker/Filters/Crop/Menu/CropAspectSelector.swift:100 | finds the first option whose vertical name matches, or none when no option matches |
| CropAspect.CropAspectSelector.UpdateSelection | Sources/TTDImagePicker/Filters/Crop/Menu/CropAspectSelector.swift:99-105 | each button is highlighted iff its tag is 1000 plus the first matching index; with no match, nothing changes |
| CropAspect.UpdatedSelectionHighlightsFirstMatch | Sources/TTDImagePicker/Filters/Crop/Menu/CropAspectSelector.swift:99-105 | on the laid-out buttons, exactly the first matching option's button is highlighted, so at most one is; with no match the buttons are unchanged |
| CropAspect.SelectingOptionHighlightsItsButton | Sources/TTDImagePicker/Filters/Crop/Menu/CropAspectSelector.swift:99-105 | when vertical names are distinct, selecting option k highlights button k and no other |
| CropAspect.CropAspectSelector.SetSelectedOption | Sources/TTDImagePicker/Filters/Crop/Menu/CropAspectSelector.swift:9-16 | every assignment, repeats included, updates the highlight, then reports the ratio and name for the orientation, then closes |
| CropAspect.IndexForTag | Sources/TTDImagePicker/Filters/Crop/Menu/CropAspectSelector.swift:119 | the index a tag stands for is the one whose tag it is |
| CropAspect.TagRoundTrip | Sources/TTDImagePicker/Filters/Crop/Menu/CropAspectSelector.swift:118-121 | tagging an index and reading the tag back are inverse, in both directions |
| CropAspect.CropAspectSelector.OptionButtonTapAction | Sources/TTDImagePicker/Filters/Crop/Menu/CropAspectSelector.swift:118-121 | a tap selects options[tag - 1000], and the reported name is the tapped button's title |
| CropAspect.CropAspectSelector.CloseButtonTapAction | Sources/TTDImagePicker/Filters/Crop/Menu/CropAspectSelector.swift:123-125 | only the close callback runs; the selection and buttons are unchanged |
| CropAspect.NameFor | Sources/TTDImagePicker/Filters/Crop/Menu/CropAspectSelector.swift:18-20 | the name is nameH when the ratio manager is horizontal, nameV otherwise |
| CropAspect.RatioFor | Sources/TTDImagePicker/Filters/Crop/Menu/CropAspectSelector.swift:22-24 | the ratio is ratioH when the ratio manager is horizontal, ratioV otherwise, the same orientation as the name |
| CropAspect.CropAspectSelector.SelectedRatio | Sources/TTDImagePicker/Filters/Crop/Menu/CropAspectSelector.swift:22-24 | the selected option's ratio for the manager's orientation |
| DurationFormat.TruncRem | Sources/TTDImagePicker/Helpers/TTDHelper.swift:57 | Swift's remainder: the dividend is divisor * quotient + remainder, the remainder is smaller than the divisor and has the dividend's sign |
| DurationFormat.TruncDiv | Sources/TTDImagePicker/Helpers/TTDHelper.swift:58 | Swift's division rounds toward zero: the quotient has the dividend's sign and quotient * divisor lies within one divisor of the dividend, on the zero side |
| DurationFormat.Seconds | Sources/TTDImagePicker/Helpers/TTDHelper.swift:57 | the seconds are what remains of the duration after its whole minutes, and lie strictly between -60 and 60 |
| DurationFormat.Minutes | Sources/TTDImagePicker/Helpers/TTDHelper.swift:58 | the minutes are what remains of the whole minutes after the whole hours, and lie strictly between -60 and 60 |
| DurationFormat.Pad2 | Sources/TTDImagePicker/Helpers/TTDHelper.swift:59 | "%02d" is at least two characters: a minus sign for negatives, otherwise two digits for values below 100 that read back as the value |
| DurationFormat.FormattedStringFrom | Sources/TTDImagePicker/Helpers/TTDHelper.swift:55-60 | for a non-negative duration the label is five characters: characters 0, 1, 3 and 4 are digits, character 2 is ':', and the digit pairs read as the minutes and the seconds |
| DurationFormat.FieldBounds | Sources/TTDImagePicker/Helpers/TTDHelper.swift:57-58 | both fields lie in [0, 59] for non-negative durations and in [-59, 0] for negative ones |
| DurationFormat.HoursDiscarded | Sources/TTDImagePicker/Helpers/TTDHelper.swift:57-58 | minutes * 60 + seconds is the truncating remainder of the duration by 3600 |
| DurationFormat.OneHourWrapsToZero | Sources/TTDImagePicker/Helpers/TTDHelper.swift:57-59 | 3600 seconds formats as "00:00" |
| DurationFormat.ParseFormatted | Sources/TTDImagePicker/Helpers/TTDHelper.swift:59 | reading the fields on each side of ':' gives back the minutes and the seconds, for every duration |
| DeviceOrientation.Classify | Sources/TTDImagePicker/Helpers/TTDDeviceOrientationHelper.swift:35-49 | x >= 0.6 gives landscape right, x <= -0.6 landscape left, otherwise y <= -0.6 portrait and y >= 0.6 upside down; the dead zone gives nothing |
| DeviceOrientation.XDominates | Sources/TTDImagePicker/Helpers/TTDDeviceOrientationHelper.swift:35-40 | once abs(x) reaches 0.6, the result does not depend on y |
| DeviceOrientation.Step | Sources/TTDImagePicker/Helpers/TTDDeviceOrientationHelper.swift:32-53 | a missing or dead-zone sample changes nothing; the stored value changes only to a different classified orientation, and the change flag says whether it did |
| DeviceOrientation.RunIsLastClassified | Sources/TTDImagePicker/Helpers/TTDDeviceOrientationHelper.swift:31-61 | after a run of samples, the stored orientation is the classification of the last usable sample, or the start value |
| DeviceOrientation.ChangesNeverRepeat | Sources/TTDImagePicker/Helpers/TTDDeviceOrientationHelper.swift:52-57 | announcements come one per change: none repeats its predecessor or the start value, and the last is the stored value |
| DeviceOrientation.ChangesAreClassified | Sources/TTDImagePicker/Helpers/TTDDeviceOrientationHelper.swift:35-46 | every announced orientation is one of the four classified ones |
| DeviceOrientation.DeviceOrientationHelper.constructor | Sources/TTDImagePicker/Helpers/TTDDeviceOrientationHelper.swift:14-23 | the stored orientation starts as portrait, with no handler |
| DeviceOrientation.DeviceOrientationHelper.StartDeviceOrientationNotifier | Sources/TTDImagePicker/Helpers/TTDDeviceOrientationHelper.swift:25-26 | registering stores the handler, nil included, in the slot |
| DeviceOrientation.DeviceOrientationHelper.OnAccelerometerData | Sources/TTDImagePicker/Helpers/TTDDeviceOrientationHelper.swift:31-61 | the stored orientation follows Step and stays one of the four; a block is scheduled only on a change, following the corrected schedule (a registered closure only) |
| DeviceOrientation.DeviceOrientationHelper.RunMainQueueBlock | Sources/TTDImagePicker/Helpers/TTDDeviceOrientationHelper.swift:55-57 | the handler receives the orientation stored when its block runs |
| DeviceOrientation.ScheduledAsWritten | Sources/TTDImagePicker/Helpers/TTDDeviceOrientationHelper.swift:54-56 | as written: a registered slot always schedules a block, and a nil closure reaches the force-unwrap |
| DeviceOrientation.NilHandlerTraps | Sources/TTDImagePicker/Helpers/TTDDeviceOrientationHelper.swift:12 | a nil handler, then a tilt to the right from portrait, force-unwraps nil |
| DeviceOrientation.Scheduled | Sources/TTDImagePicker/Helpers/TTDDeviceOrientationHelper.swift:54-56 | corrected: a call is scheduled exactly when a closure is registered |
| DeviceOrientation.ScheduledAgreesWhenNoTrap | Sources/TTDImagePicker/Helpers/TTDDeviceOrientationHelper.swift:54-56 | the corrected schedule agrees with the written one wherever the written one does not trap |

## Left out

- Auto Layout, `addChild`/`didMove`, `loadView`, the header view's `refreshMenuItems`, menu images and scroll animation: UIKit presentation. Constraints are recorded as a leading offset and width per child.
- `UIScreen.main.bounds.width` is a constructor parameter.
- `scrollViewWillEndDragging` rounds a CGFloat offset to a page index. That floating-point step is left out; the computed index is a parameter.
- `TTDImageMenuItem` is not part of this model. A new menu item is taken to start unhighlighted.
- `RatioItemType` and `FixedRatioManager` are not part of this model. A ratio item is four fields with structural equality. The manager's orientation and ratio list are fixed at construction.
- Button fonts, colours, targets, the stack and scroll views: UIKit presentation.
- `formattedStrigFrom` takes an `Int`. The `Int(timeInterval)` conversion from `Double`, and its trap on values outside 64 bits, are floating point.
- `CMMotionManager`, the `OperationQueue`, `stopDeviceOrientationNotifier` and the update interval: sensor I/O and concurrency. Only the per-sample step and the main-queue hand-off are modelled, one block at a time.
- The rest of the repository is not part of this model. That includes `RotationCalculator` (floating-point trigonometry), `CropViewController`, `TTDVideoView`, the button and file-manager extensions, and the other `TTDHelper` functions (bundle lookup and UIKit).
- Paging.BottomPager.ShowPage: the animated `setContentOffset` makes UIKit call `scrollViewDidScroll` during the animation, and so `pagerScrollViewDidScroll` on the delegate. Those calls are not recorded in `delegateCalls`: their number and timing depend on the animation.
- Paging.BottomPager.TabTapped: goes through `ShowPage`, so the same animated scroll calls are not recorded.
- DeviceOrientation.DeviceOrientationHelper.OnAccelerometerData: schedules by the corrected `Scheduled`, so a slot holding a nil closure schedules nothing. The code as written schedules a block that force-unwraps nil; that behaviour is `ScheduledAsWritten`, and it is listed under Findings.
- Paging.BottomPager.CurrentController: states only that the result is one of the controllers (the in-bounds guarantee), not which one.

## Findings

| source | as written | input that shows it | evidently intended | confidence | as-written member | corrected member |
|---|---|---|---|---|---|---|
| Sources/TTDImagePicker/Helpers/TTDDeviceOrientationHelper.swift:54-56 | The handler slot is `DeviceOrientationHandler?`, and `DeviceOrientationHandler` is itself optional, so the slot is a double optional. `if let` unwraps only the outer level, and the main-queue block then force-unwraps the inner closure. | `startDeviceOrientationNotifier(with: nil)`, then a sample with x = 0.7 while portrait is stored: the block force-unwraps nil and traps | call the handler only when a closure was registered | medium; not executed | DeviceOrientation.NilHandlerTraps | DeviceOrientation.Scheduled |
