# Vision Workbench masked pixels, plate RPC checksums, settings and plate2dem

This project is a Dafny model of a slice of NASA's Vision Workbench image-processing library.

- **`PixelMask` (`pixel_mask.dfy`).** The masked pixel: a child pixel of `n` channels plus a validity channel.
  - Its constructors, `validate`/`invalidate`, channel indexing and scalar conversion.
  - `mean_channel_value` and `is_transparent`.
  - The compound functors that lift a per-channel function to masked pixels, both in value form and in place.
  - The two views built on masked pixels: `CreatePixelMaskView` marks a sentinel value invalid, and `ApplyPixelMaskView` replaces invalid pixels.
- **`RpcChannel` (`rpc_channel.dfy`).** The message-integrity logic of the plate RPC channel:
  - the Fletcher-style checksum in 16-bit arithmetic over signed `char`s;
  - stamping on send, and the return codes of receive;
  - choosing a transport by URL scheme.
- **`Settings` (`settings.dfy`).** The process-wide settings object, as a class whose fields its methods update:
  - the polling of the `.vwrc` configuration file (its poll period, last poll time and last modification time);
  - the getters and setters of the tunable values and their "overridden" flags.
- **`Plate2Dem` (`plate2dem.dfy`).** The pure parts of the `plate2dem` tool:
  - the PDS imagery colour conversion;
  - tile file names, and offsetting tile boxes into the output frame;
  - the default output prefix;
  - writing transparent DEM pixels.
- **`PerPixelAccessorViews` (`per_pixel_accessor_views.dfy`).** The unary per-pixel-accessor view:
  - a functor applied to an accessor of the wrapped image;
  - padding by the functor's work area when prerasterizing through a buffer;
  - `per_pixel_accessor_filter` with its edge extension.

Images are modelled as total functions from `(col, row, plane)` to pixels, with their dimensions (`ImageView.View`). A pixel type's channels are a sequence. Its channel range is a `ChannelRange` value that holds the minimum, maximum and zero (`T()`) of the channel type. A pixel counts as valid when its validity channel differs from zero (`channel_type()`). The source uses `valid()` as a truth value (`PixelMask.h:247`), and for arithmetic channel types that is the same test.

Three places where the model follows the code rather than the surrounding documentation:
- The default `PixelMask` has validity channel `min` (`PixelMask.h:118-121`). It reads as invalid only when that minimum equals `channel_type()`. `ChannelRange` is not part of this model, so `min`, `max` and zero are parameters.
- The converting constructor gives an invalid source the validity value `channel_type()`, not `min` (`PixelMask.h:133-144`).
- `CreatePixelMaskView` invalidates a sentinel pixel but keeps its child (`PixelMask.h:709-712`).

## Model

| member | source | states |
|---|---|---|
| PixelMask.IsTransparent | src/vw/Image/PixelMask.h:246-247 | a pixel is transparent exactly when its validity channel is `channel_type()` |
| PixelMask.Default | src/vw/Image/PixelMask.h:118-121 | the default pixel has `n` zero channels and validity `min` |
| PixelMask.FromChild | src/vw/Image/PixelMask.h:126-130 | construction from a child keeps the child and sets validity to `max` |
| PixelMask.FromChannels2 | src/vw/Image/PixelMask.h:146-149 | the two-channel constructor stores the channels in order and sets validity to `max` |
| PixelMask.FromChannels3 | src/vw/Image/PixelMask.h:151-154 | the three-channel constructor stores the channels in order and sets validity to `max` |
| PixelMask.FromChannels4 | src/vw/Image/PixelMask.h:156-159 | the four-channel constructor stores the channels in order and sets validity to `max` |
| PixelMask.DefaultIsInvalid | src/vw/Image/PixelMask.h:116-121 | the default pixel has a zero child and validity `min`, so it is transparent exactly when `min` is the zero value |
| PixelMask.ConstructedPixelsAreValid | src/vw/Image/PixelMask.h:123-159 | the constructors from a child or from 2, 3 or 4 channels keep those channels and set validity to `max`, so the pixel is valid whenever `max` is not zero |
| PixelMask.Validate | src/vw/Image/PixelMask.h:167-168 | `validate` keeps the child and sets validity to `max` |
| PixelMask.Invalidate | src/vw/Image/PixelMask.h:164-165 | `invalidate` keeps the child and sets validity to `min` |
| PixelMask.ValidateInvalidateRoundTrip | src/vw/Image/PixelMask.h:161-168 | for a pixel with validity `max`, invalidating and then validating gives the pixel back, and the invalidated pixel is transparent when `min` is zero |
| PixelMask.Channel | src/vw/Image/PixelMask.h:183-195 | `operator[](i)` gives child channel `i` below `n` and the validity channel at `n` |
| PixelMask.SetChannel | src/vw/Image/PixelMask.h:182-195 | writing channel `i` through `operator[]` changes channel `i` (index `n` is the validity channel) and no other channel |
| PixelMask.ChannelIndexing | src/vw/Image/PixelMask.h:182-195 | indices below `n` reach the child's channels and index `n` reaches the validity channel |
| PixelMask.ToScalar | src/vw/Image/PixelMask.h:173-180 | the scalar cast of a one-channel pixel is its channel 0 |
| PixelMask.ToScalarOfFromChild | src/vw/Image/PixelMask.h:173-180 | the scalar cast of a one-channel pixel built from `x` is `x` |
| PixelMask.Convert | src/vw/Image/PixelMask.h:133-144 | a valid source is converted channel by channel with validity `max`; an invalid one gives zero channels and validity `channel_type()` |
| PixelMask.ConvertPreservesValidity | src/vw/Image/PixelMask.h:132-144 | conversion keeps validity (when the target `max` is not zero) and converts a valid child channel by channel; an invalid source becomes the default pixel exactly when the target `min` is zero |
| PixelMask.MeanChannelValue | src/vw/Image/PixelMask.h:228-243 | the mean loop sums channels `0..n-2` and divides by `n` for a valid pixel, and returns 0 for an invalid one |
| PixelMask.MeanAsWrittenMissesLastChannel | src/vw/Image/PixelMask.h:234-239 | the mean as written equals the intended mean minus the last channel divided by `n` |
| PixelMask.MeanCounterexample | src/vw/Image/PixelMask.h:234-239 | for a valid 3-channel pixel (2, 4, 6) the mean as written is 2, while the intended mean is 4 |
| PixelMask.MeanIntendedOfUniform | src/vw/Image/PixelMask.h:228-243 | the intended mean of a valid pixel whose channels all equal `x` is `x` |
| PixelMask.BinaryCompoundApply | src/vw/Image/PixelMask.h:258-270 | the result applies `f` channel by channel when both arguments are valid, and is the default pixel otherwise |
| PixelMask.BinaryUnrolledAgrees | src/vw/Image/PixelMask.h:272-314 | the 1-, 2-, 3- and 4-channel specialisations compute the same pixel as the general case |
| PixelMask.BinaryValidity | src/vw/Image/PixelMask.h:258-348 | with `min` zero and `max` not zero, the result is valid exactly when both arguments are valid; it holds `f` of the channels, or zero channels |
| PixelMask.BinaryCompoundApplyInPlace | src/vw/Image/PixelMask.h:359-370 | in-place application updates each channel of a valid first argument with `f`, and resets the first argument to the default pixel when either argument is invalid |
| PixelMask.BinaryInPlaceUnrolledAgrees | src/vw/Image/PixelMask.h:372-427 | the 1- to 4-channel in-place specialisations agree with the general case |
| PixelMask.BinaryInPlaceMatchesValueForm | src/vw/Image/PixelMask.h:359-450 | the in-place result keeps the first argument's validity channel, and equals the value form whenever a valid first argument carries `max` |
| PixelMask.UnaryCompoundApply | src/vw/Image/PixelMask.h:461-474 | the unary result maps `f` over the channels of a valid pixel and is the default pixel for an invalid one |
| PixelMask.UnaryUnrolledAgrees | src/vw/Image/PixelMask.h:476-518 | the unary 1- to 4-channel specialisations agree with the general case |
| PixelMask.UnaryValidity | src/vw/Image/PixelMask.h:461-550 | with `min` zero and `max` not zero, the unary result is valid exactly when the argument is valid; it holds `f` of the channels, or is the default pixel |
| PixelMask.UnaryCompoundApplyInPlace | src/vw/Image/PixelMask.h:562-573 | in-place unary application updates each channel of a valid pixel and resets an invalid one to the default |
| PixelMask.UnaryInPlaceUnrolledAgrees | src/vw/Image/PixelMask.h:575-630 | the unary in-place specialisations agree with the general case |
| PixelMask.UnaryInPlaceMatchesValueForm | src/vw/Image/PixelMask.h:562-673 | the in-place unary result keeps the argument's validity channel, and equals the value form whenever a valid argument carries `max` |
| PixelMask.MaskPixel | src/vw/Image/PixelMask.h:708-716 | a masked pixel keeps the source pixel as its child, with validity `min` on an active sentinel match and `max` otherwise |
| PixelMask.MaskPixelSpec | src/vw/Image/PixelMask.h:708-716 | with `min` zero and `max` not zero, a pixel equal to the active nodata value becomes transparent with the same child, and any other pixel is built from its child and valid |
| PixelMask.CreatePixelMaskView.constructor | src/vw/Image/PixelMask.h:694-695 | the constructor keeps the view but not the nodata value: the sentinel is not in use (and is read as the zero pixel) |
| PixelMask.CreatePixelMaskView.SetNodataValue | src/vw/Image/PixelMask.h:697-700 | `set_nodata_value` stores the sentinel and switches it on |
| PixelMask.CreatePixelMaskView.At | src/vw/Image/PixelMask.h:708-716 | each pixel keeps the source child, with validity `min` when the sentinel is in use and the source pixel equals it and `max` otherwise |
| PixelMask.CreatePixelMaskView.AsView | src/vw/Image/PixelMask.h:702-716 | the view has the source's dimensions and its pixels are the masked source pixels |
| PixelMask.CreateMask | src/vw/Image/PixelMask.h:728-733 | `create_mask(view, value)` yields a new view over `view` whose sentinel is `value` and in use |
| PixelMask.MakeApplyPixelMaskView | src/vw/Image/PixelMask.h:759 | the constructor as written keeps the view but stores the zero pixel, not the replacement it is given |
| PixelMask.ApplyMask | src/vw/Image/PixelMask.h:786-791 | `apply_mask(view, value)` builds the view with the zero pixel as its replacement, whatever `value` is |
| PixelMask.ApplyAt | src/vw/Image/PixelMask.h:767-774 | a valid pixel gives its child and an invalid one gives the stored replacement |
| PixelMask.ApplyMaskIgnoresReplacement | src/vw/Image/PixelMask.h:759-791 | as written, `apply_mask(view, value)` yields the same view for every `value`, because the constructor drops it |
| PixelMask.MaskRoundTripAsWritten | src/vw/Image/PixelMask.h:708-774 | `apply_mask` as written over an image holding the masked pixels of a source (with `min` zero and `max` not zero) gives the zero pixel where the source held the sentinel, whatever replacement was asked for, and the source pixel elsewhere |
| PixelMask.MaskRoundTripIntended | src/vw/Image/PixelMask.h:744-747 | with the replacement stored, applying the mask to an image holding the masked pixels gives the replacement where the source held the sentinel and the source pixel elsewhere |
| PixelMask.ApplyMaskCounterexample | src/vw/Image/PixelMask.h:759-774 | over an image holding pixels masked with sentinel (0, 0, 0), replacement (255, 255, 255) gives (0, 0, 0) at a sentinel pixel as written and (255, 255, 255) when corrected; other pixels are unchanged |
| RpcChannel.FletcherAdd | src/vw/Plate/RpcChannel.cc:96-105 | the loop leaves the sum given by the running-sums definition |
| RpcChannel.SplitJoin | src/vw/Plate/RpcChannel.cc:97-104 | splitting a 32-bit sum into `c0`/`c1` and joining them back are inverses |
| RpcChannel.FletcherEmpty | src/vw/Plate/RpcChannel.cc:96-105 | adding no bytes leaves the sum unchanged |
| RpcChannel.FletcherConcat | src/vw/Plate/RpcChannel.cc:108-113 | feeding `a` and then `b` equals feeding `a + b`, so the two-call checksum is the sum over the concatenation |
| RpcChannel.RunningSumsClosedForm | src/vw/Plate/RpcChannel.cc:98-101 | `c0` is the start plus all char values and `c1` is the start plus `n*c0` plus the weighted prefix sums, both mod 2^16 |
| RpcChannel.FletcherDetectsByteChange | src/vw/Plate/RpcChannel.cc:96-105 | changing any single byte always changes the sum |
| RpcChannel.Checksum | src/vw/Plate/RpcChannel.cc:108-113 | the checksum is the Fletcher sum from 0 over the method name followed by the payload |
| RpcChannel.ChecksumOfEmpty | src/vw/Plate/RpcChannel.cc:108-113 | an empty method name and payload give checksum 0 |
| RpcChannel.Stamp | src/vw/Plate/RpcChannel.cc:35-36 | stamping keeps the name and payload and sets the checksum field to the checksum of the contents |
| RpcChannel.StampIsConsistent | src/vw/Plate/RpcChannel.cc:35-36 | a stamped message passes the check, and restamping changes nothing |
| RpcChannel.CorruptedPayloadFailsCheck | src/vw/Plate/RpcChannel.cc:44-53 | a stamped message with one payload byte altered fails receive's checksum comparison |
| RpcChannel.SendMessage | src/vw/Plate/RpcChannel.cc:35-42 | the sent message keeps its name and payload and carries its own checksum |
| RpcChannel.RecvMessage | src/vw/Plate/RpcChannel.cc:44-53 | receive returns 0 exactly when nothing arrived and 1 exactly when the message parsed and its checksum matches, otherwise -1; the message is replaced only on a successful parse |
| RpcChannel.Make | src/vw/Plate/RpcChannel.cc:55-68 | `make` succeeds exactly for the AMQP schemes with RabbitMQ or the ZeroMQ schemes with ZeroMQ, gives the client name, and otherwise fails with NoImplErr naming the scheme |
| Settings.ReloadSpec | src/vw/Core/Settings.cc:67-92 | a reload attempt parses exactly when the poll is due, the file exists and its mtime is newer than the last one seen; it moves the poll time only when due and the modification time only when it parses |
| Settings.LastModificationMonotone | src/vw/Core/Settings.cc:87-92 | across any sequence of reload attempts, the last modification time seen never decreases, and the file name and period stay the same |
| Settings.ReloadSameInstant | src/vw/Core/Settings.cc:67-73 | with a non-negative period, a second reload in the same second neither polls nor parses |
| Settings.SameModificationTimeNotReparsed | src/vw/Core/Settings.cc:87-92 | a file whose mtime equals the last one seen is not parsed again |
| Settings.RenameToSameName | src/vw/Core/Settings.cc:105-118 | setting the same file name again changes no poll state |
| Settings.EmptyNameDisablesReload | src/vw/Core/Settings.cc:105-112 | after setting an empty file name, no reload attempt parses |
| Settings.NewNameForcesParse | src/vw/Core/Settings.cc:113-125 | after naming a new file with a positive mtime, the next due reload parses it and records that mtime |
| Settings.RepolledForcesPoll | src/vw/Core/Settings.cc:128-138 | after setting a poll period, a reload at any time beyond that period polls |
| Settings.DefaultValues | src/vw/Core/Settings.cc:153-158 | the defaults are the build's thread count, 768 MiB of cache, 21 write-pool threads, 256-pixel tiles and `/tmp` |
| Settings.Settings.constructor | src/vw/Core/Settings.cc:140-167 | a new object holds the defaults, no overrides, `$HOME/.vwrc`, poll period 5 and both times at 0 |
| Settings.Settings.ReloadConfig | src/vw/Core/Settings.cc:51-95 | the poll state becomes the pure reload of the old state; the values do not change |
| Settings.Settings.GetDefaultNumThreads | src/vw/Core/Settings.cc:174-179 | returns the thread count stored before the call; it reloads the file only when the value is not overridden (a reload here changes only the poll state, because parsing is not modelled) |
| Settings.Settings.SetDefaultNumThreads | src/vw/Core/Settings.cc:181-197 | 0 restores the build default, clears the override and reloads; any other value is stored and marked overridden |
| Settings.Settings.GetSystemCacheSize | src/vw/Core/Settings.cc:199-204 | returns the cache size stored before the call, reloading only when not overridden (a reload changes only the poll state, because parsing is not modelled) |
| Settings.Settings.SetSystemCacheSize | src/vw/Core/Settings.cc:206-213 | stores the size and marks it overridden, changing nothing else |
| Settings.Settings.GetWritePoolSize | src/vw/Core/Settings.cc:215-220 | returns the write pool size stored before the call, reloading only when not overridden (a reload changes only the poll state, because parsing is not modelled) |
| Settings.Settings.SetWritePoolSize | src/vw/Core/Settings.cc:222-228 | stores the size and marks it overridden, changing nothing else |
| Settings.Settings.GetDefaultTileSize | src/vw/Core/Settings.cc:230-235 | returns the tile size stored before the call, reloading only when not overridden (a reload changes only the poll state, because parsing is not modelled) |
| Settings.Settings.SetDefaultTileSize | src/vw/Core/Settings.cc:237-241 | stores the tile size and marks it overridden |
| Settings.Settings.GetTmpDirectory | src/vw/Core/Settings.cc:243-248 | returns the temporary directory stored before the call, reloading only when not overridden (a reload changes only the poll state, because parsing is not modelled) |
| Settings.Settings.SetTmpDirectory | src/vw/Core/Settings.cc:250-254 | stores the directory and marks it overridden |
| Settings.Settings.SetRcFilename | src/vw/Core/Settings.cc:97-126 | the poll state becomes the reload after the rename: same name leaves it, empty name disables polling, a new name resets the times |
| Settings.Settings.SetRcPollPeriod | src/vw/Core/Settings.cc:128-138 | stores the period, makes the next poll due and reloads |
| Settings.SetThenGetWritePoolSize | src/vw/Core/Settings.cc:215-228 | after setting the write pool size, reading it returns that size without touching the configuration file |
| Plate2Dem.PdsChannel | src/vw/Plate/plate2dem.cc:56-64 | a converted colour channel is always in 1..254, so it never collides with the nodata value 0 |
| Plate2Dem.PdsPixel | src/vw/Plate/plate2dem.cc:44-66 | the output has as many channels as the colour part of the input |
| Plate2Dem.ConvertToPdsImagery | src/vw/Plate/plate2dem.cc:52-66 | the loop clamps each channel as the reference conversion does and zeroes a transparent pixel |
| Plate2Dem.PdsPixelRange | src/vw/Plate/plate2dem.cc:44-64 | an opaque pixel's channels are all in 1..254 and a transparent pixel's are all 0, the nodata value |
| Plate2Dem.PdsChannelMonotone | src/vw/Plate/plate2dem.cc:56-64 | the channel conversion is monotone in the input |
| Plate2Dem.PdsChannelEnds | src/vw/Plate/plate2dem.cc:56-64 | inputs at or below 0 give 1 and inputs at or above the channel maximum give 254 |
| Plate2Dem.TruncToInt | src/vw/Plate/plate2dem.cc:163-168 | the cast to int truncates toward zero |
| Plate2Dem.Decimal | src/vw/Plate/plate2dem.cc:162-168 | streaming a natural number yields a nonempty string of digits whose value is that number |
| Plate2Dem.TileFilename | src/vw/Plate/plate2dem.cc:161-172 | the file name built for a tile corner parses back to that corner's truncated degrees and hemispheres |
| Plate2Dem.TileNameRoundTrip | src/vw/Plate/plate2dem.cc:161-172 | a tile file name can be parsed back into the degrees and hemispheres it was built from |
| Plate2Dem.TileFilenameDeterminesKey | src/vw/Plate/plate2dem.cc:161-172 | two tiles share a file name only when their truncated degrees and hemispheres agree |
| Plate2Dem.TileFilenameNearMeridian | src/vw/Plate/plate2dem.cc:161-172 | corners at longitude -0.5 and 0.5 both truncate to 0 degrees and differ only in the hemisphere letter (`moon_0W_10N.tif`, `moon_0E_10S.tif`) |
| Plate2Dem.OffsetTileBoxes | src/vw/Plate/plate2dem.cc:136-140 | every box in the array is moved by the output box's min corner, in place |
| Plate2Dem.OffsetKeepsLayout | src/vw/Plate/plate2dem.cc:136-140 | offsetting keeps every box's size and the relative position of any two boxes, and a box at the origin lands on the output box's corner |
| Plate2Dem.LastIndexOf | src/vw/Plate/plate2dem.cc:255-257 | returns the position of the last occurrence of the character, or None when it does not occur |
| Plate2Dem.AfterLast | src/vw/Plate/plate2dem.cc:255-257 | the result is a suffix of the path that contains no separator |
| Plate2Dem.DefaultOutputPrefix | src/vw/Plate/plate2dem.cc:253-258 | the default prefix (the plate file's stem after its last `/`) contains no `/` |
| Plate2Dem.OutputPrefix | src/vw/Plate/plate2dem.cc:246-258 | argument handling fails exactly when the plate file name is empty; otherwise it gives the given prefix, or the default when none is given |
| Plate2Dem.DefaultOutputPrefixSpec | src/vw/Plate/plate2dem.cc:253-258 | the default prefix never contains `/`, and for `dir/name.ext` it is `name` |
| Plate2Dem.OutputPrefixChoice | src/vw/Plate/plate2dem.cc:246-258 | a missing plate file name is an argument error; a given prefix is used as is; otherwise the default prefix, which has no `/`, is used |
| Plate2Dem.PdsDemInvalidPixels | src/vw/Plate/plate2dem.cc:178-182 | an invalid DEM pixel whose validity is `channel_type()` (0) is written as 0 as written and as -32767 with the replacement stored; one whose validity is the int16 minimum (from the default constructor or `invalidate()`) reads as valid, and its child is written under either form |
| BBox.Translate | src/vw/Plate/plate2dem.cc:139-140 | translating a box keeps its size and shifts its corner |
| BBox.FromCornerAndSize | src/vw/Image/PerPixelAccessorViews.h:100-102 | the box built from a corner and a size has that corner and that size |
| PerPixelAccessorViews.AsView | src/vw/Image/PerPixelAccessorViews.h:85-90 | the view has the wrapped image's dimensions and each pixel is the functor applied to an accessor at that position |
| PerPixelAccessorViews.At | src/vw/Image/PerPixelAccessorViews.h:89-90 | `operator()` is the functor applied to the origin advanced to `(i, j, p)` |
| PerPixelAccessorViews.PadBBox | src/vw/Image/PerPixelAccessorViews.h:97-103 | the padded box starts at the box corner plus the work-area corner and is larger by the work-area size |
| PerPixelAccessorViews.PadCoversWorkArea | src/vw/Image/PerPixelAccessorViews.h:97-103 | every pixel the functor reads for a position in the box lies in the padded box |
| PerPixelAccessorViews.PrerasterizeBuffered | src/vw/Image/PerPixelAccessorViews.h:114-121 | the prerasterized view keeps the functor and the wrapped image's dimensions |
| PerPixelAccessorViews.BufferedImageAgrees | src/vw/Image/PerPixelAccessorViews.h:115-121 | the cropped buffer shows the wrapped image at every pixel of the padded box |
| PerPixelAccessorViews.PrerasterizeBufferedAgrees | src/vw/Image/PerPixelAccessorViews.h:109-125 | for a functor that reads only its work area, the prerasterized view equals the original view at every pixel of the requested box |
| PerPixelAccessorViews.EdgeExtend | src/vw/Image/PerPixelAccessorViews.h:131-135 | the edge-extended image equals the image inside its bounds and the edge rule outside them |
| PerPixelAccessorViews.DefaultFilterExtendsWithZeros | src/vw/Image/PerPixelAccessorViews.h:131-141 | the filter without an edge argument is the filter with zero edge extension, has the image's dimensions and reads zero outside the image |

## Left out

- Pixel-type traits and macros (`PixelMask.h:57-94`, `219-226`): the channel count and the channel range (`min`, `max`, zero) are parameters.
- Channel arithmetic's C++ type promotion: the per-channel functions are arbitrary Dafny functions.
- `PixelMask::operator()(int)` (`PixelMask.h:197-208`): it returns `valid`, the member function, rather than `m_valid` for index `n`, so it does not compile once instantiated. There is no behaviour to model; `operator[]` is modelled.
- The `const` in-place functor overloads (`PixelMask.h:649-652`, `660-673`): they instantiate `Helper` with `const ArgT`, whose `arg = ArgT()` (`PixelMask.h:569`) assigns through a const reference, so they do not compile once instantiated. There is no behaviour to model.
- The `create_mask(view)` overload without a value (`PixelMask.h:735-738`): it calls a one-argument `CreatePixelMaskView` constructor that does not exist (the only one, `PixelMask.h:694`, takes two), so it does not compile once instantiated. There is no behaviour to model.
- `operator<<` on masked pixels: output formatting.
- PixelMask.MakeApplyPixelMaskView and PixelMask.CreatePixelMaskView.constructor: for a scalar pixel type the unset member (`m_replacement_value`, `PixelMask.h:752`; `m_nodata_value`, `PixelMask.h:686`) is indeterminate in the source. The model reads it as the zero pixel, which is what a pixel-class child's default constructor gives. For the sentinel this cannot be observed while it is off.
- `ApplyPixelMaskView::operator()` over a `CreatePixelMaskView` (`PixelMask.h:768`): it binds a non-const reference to the `const` pixel that `CreatePixelMaskView::operator()` returns by value (`PixelMask.h:691`, `708`), so `apply_mask(create_mask(...))` does not compile. The round-trip lemmas take the masked pixels as an image that holds them, such as an `ImageView` of masked pixels, whose `operator()` returns a reference.
- Stateful functors: a functor that changes itself while applied is modelled as a pure function.
- PixelMask.Convert: converting between pixel kinds (e.g. RGB to grey) is modelled only channel by channel.
- `prerasterize` and `rasterize` of the mask views, pixel accessors and multiple accessibility: these are rasterization machinery outside this model.
- Settings: mutexes and locking, `stat`, `getpwuid` and `$HOME`, and the `vw_system_cache` resize are left out.
- Settings: the file's modification time and the current time are parameters.
- Settings: parsing the configuration file is not modelled. Its effect on the values is left out, so a reload changes only the poll state.
- Settings: the configuration file is assumed to be enabled at build time.
- Settings: time arithmetic is exact. The source's `long` subtraction and `double` comparison are not modelled.
- RpcChannel: `unique_name`, protobuf serialisation, the transport classes and the `make_conn`/`make_bind` wrappers are not modelled.
- RpcChannel: `char` is taken to be signed.
- RpcChannel: on a failed parse the message keeps its old contents; partial parsing is not modelled.
- Plate2Dem: georeferencing and resampling, GDAL output, the plate file itself, option parsing and the main dispatch are not modelled.
- Plate2Dem: the tile loop and its file I/O are not modelled; only the tile-box offset and the file name are.
- Plate2Dem: the transparency test of the PDS conversion is a parameter. NaN inputs are not modelled.
- Plate2Dem.PdsDemInvalidPixels: `alpha_to_mask` is not part of this model, so which validity value it gives a transparent pixel is open. The lemma states what is written for each of the two validity values the source's `PixelMask` constructors and `invalidate()` produce.
- Plate2Dem.TruncToInt: does not model the 32-bit overflow of the cast for out-of-range degrees, because tile coordinates are within ±360.
- Plate2Dem.AfterLast: Boost's special cases for paths ending in `/`, `.` and `..` are not modelled.
- PerPixelAccessorViews: the multiply-accessible path of `prerasterize` (`PerPixelAccessorViews.h:109-112`) is not modelled. It wraps the wrapped image's own `prerasterize` of the padded box with the same functor, and image prerasterization is not part of this model.
- PerPixelAccessorViews.RasterizeBuffer: reads outside the buffer are undefined in the source; a `junk` function stands for their result.

## Findings

| source | as written | input that shows it | evidently intended | confidence | as-written member | corrected member |
|---|---|---|---|---|---|---|
| src/vw/Image/PixelMask.h:759 | the `ApplyPixelMaskView` constructor takes `replacement_value` but never stores it, so invalid pixels read an unset member (the zero pixel for value types) | an `ImageView` of masked pixels (its `operator()` returns a reference) with one pixel invalid, for instance the pixels of a source masked with sentinel (0, 0, 0); `apply_mask(view, (255, 255, 255))` yields (0, 0, 0) there, not (255, 255, 255). Applying `apply_mask` directly to a `create_mask` view does not compile (`PixelMask.h:768`). Through `plate2dem.cc:179`, an invalid DEM pixel whose validity is `channel_type()` would be written as 0 instead of -32767 (`Plate2Dem.PdsDemInvalidPixels`); whether that path reaches this case depends on what `alpha_to_mask` returns, and `alpha_to_mask` is not part of this model | store the replacement value, so invalid pixels read it | not executed | PixelMask.ApplyMaskCounterexample | PixelMask.MaskRoundTripIntended |
| src/vw/Image/PixelMask.h:237 | `mean_channel_value` sums channels `0..n-2` but divides by `n` | a valid pixel (2, 4, 6): yields 2, not 4 | sum all `n` channels | not executed | PixelMask.MeanCounterexample | PixelMask.MeanIntendedOfUniform |
