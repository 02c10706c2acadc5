# Specific-channel reading and layer write dispatch of rust-openexr

This project is a Dafny model of two parts of the OpenEXR library `exr`.

The first part reads a chosen set of channels out of flat (non-deep) layers:
- A caller selects channels by name. Each slot of the pixel tuple is either required (`Sample`) or optional (`Option<Sample>`).
- `inspect_channels` resolves the selection against a layer's channel list in a single pass. It records each matched channel's per-pixel byte offset.
- `create_channels_reader` refuses deep layers and creates the caller's storage once.
- `read_block` checks a block's size and cuts it into rows. For every row it clones the initial line reader, then reads the row's pixels left to right and calls the caller's setter once per pixel.
- `filter_block` keeps only full-resolution blocks.
- `pixels::Flattened` is the reference row-major storage.

The second part is the layer dispatch of the write side:
- inferring one header per layer;
- pairing each layer with its header to build the writers;
- routing a block to the writer of its layer.

Modules:
- `Meta` holds the shared vocabulary: bytes, `Vec2`, sample types and widths, the channel list, the header fields the core uses, blocks and error values.
- `ChannelSelection` models `inspect_channels` and the two `create_channel_pixel_reader`s. `Resolve` is a reference function. The method `InspectChannels` is the source's loop, proved equal to it.
- `LineReader` models the per-channel cursor `(SampleType, usize)` and the per-row line reader. The line reader is a class whose cursor tuple `read_next_sample` / `read_next_pixel` update in place.
- `ChannelsReader` models `SpecificChannelsReader` as a class whose storage field `read_block` updates. The setter and the storage factory are caller-supplied functions over an abstract storage type. `BlockWrites` is the reference list of setter calls a block produces.
- `Pixels` models `Flattened<T>` as a class over an array.
- `WriteLayers` models the write dispatch. Panics are values of an `Outcome` type.

Selections have any number of slots, not only the source's 3-tuple instance. `ChannelSelection.SlotOfIsElseIfChain` shows that for three slots the slot choice is exactly the source's `if / else if / else if` chain.

Duplicate names in the channel list follow the code: a later list entry with the same name overwrites an earlier match, so the last entry wins. A "first match wins" reading of the resolution rule would disagree with the code.

## Model

| member | source | states |
|---|---|---|
| ChannelSelection.SlotOf | src/image/read/specific_channels.rs:311-313 | a list channel fills the first slot whose requested name equals its own; no earlier slot has that name; None when no slot has it |
| ChannelSelection.SlotOfIsElseIfChain | src/image/read/specific_channels.rs:311-313 | for three slots the slot choice equals the three-way `if / else if / else if` chain |
| ChannelSelection.LastMatch | src/image/read/specific_channels.rs:304-316 | the list entry that ends up in a slot maps to that slot and no later entry maps to it; None when no entry maps to it |
| ChannelSelection.CreateChannelPixelReader | src/image/read/specific_channels.rs:234-249 | fails exactly for a required slot without a match, with the missing-channel message; otherwise it returns the slot as reader and its channel info (None, None for an absent optional slot) |
| ChannelSelection.Finalize | src/image/read/specific_channels.rs:318-325 | a successful finalization has one reader and one sample type per slot |
| ChannelSelection.FinalizeFails | src/image/read/specific_channels.rs:318-320 | finalization fails iff some required slot is empty, and the error is the missing-channel error |
| ChannelSelection.FinalizeOk | src/image/read/specific_channels.rs:318-325 | on success the readers are the slots and each sample type is its slot's channel info, None for an empty slot |
| ChannelSelection.FinalizePrefixError | src/image/read/specific_channels.rs:318-320 | the first slot that fails decides the error of the whole selection (the `?` short-circuit) |
| ChannelSelection.Resolve | src/image/read/specific_channels.rs:300-326 | a resolved selection has one reader and one sample type per slot, and the only error it can return is the missing-channel error |
| ChannelSelection.ResolvedSlotSpec | src/image/read/specific_channels.rs:302-316 | a slot is empty iff no list channel maps to it; a filled slot holds the last matching channel, its list index and the byte offset of all earlier channels |
| ChannelSelection.ResolveFailsIffRequiredMissing | src/image/read/specific_channels.rs:300-326 | `inspect_channels` fails iff some required slot has no matching channel, and the error is the missing-channel error |
| ChannelSelection.ResolveOk | src/image/read/specific_channels.rs:300-326 | on success each slot's reader is the scan's match; required slots are always filled; absent optional slots have no sample type; present ones have their channel's info |
| ChannelSelection.ResolvedOffsets | src/image/read/specific_channels.rs:302-315 | a matched channel's recorded offset is the sum of the sample widths of the channels before it, and its sample ends within the pixel |
| ChannelSelection.DuplicateRequestFillsFirstOnly | src/image/read/specific_channels.rs:311-313 | a name requested in two slots never fills the later slot |
| ChannelSelection.InspectChannels | src/image/read/specific_channels.rs:300-326 | the single-pass loop with a running byte offset, followed by the per-slot finalization, returns exactly `Resolve` |
| LineReader.CreateChannelLineReader | src/image/read/specific_channels.rs:251-257 | a present channel's line cursor keeps its sample type and starts at `sample_byte_offset * pixel_count` |
| LineReader.CreatePixelReaderForLine | src/image/read/specific_channels.rs:344-350 | one cursor per slot, built by each slot's `create_channel_line_reader`; a slot has a cursor iff it has a reader, and that cursor keeps the channel's sample type and starts at `sample_byte_offset * pixel_count` |
| LineReader.CursorsStart | src/image/read/specific_channels.rs:344-350 | `create_pixel_reader_for_line` puts every cursor at column 0 and leaves absent slots absent |
| LineReader.CursorsStep | src/image/read/specific_channels.rs:268-288 | after `x` pixels each present cursor stands at `offset * width + x * bytes_per_sample` |
| LineReader.SampleOf | src/image/read/specific_channels.rs:268-289 | an absent slot yields None; a present one fails with the end-of-input error iff its sample runs past the row, and otherwise yields a sample of its type from the bytes at its index |
| LineReader.AllOk | src/image/read/specific_channels.rs:361-367 | a pixel has one value per slot, and an error is the error of some slot |
| LineReader.AllOkSpec | src/image/read/specific_channels.rs:361-367 | a pixel decodes iff every slot decodes, and its values are the slots' values in slot order |
| LineReader.PixelOf | src/image/read/specific_channels.rs:268-281 | the only error a pixel read can produce is the unexpected end of input |
| LineReader.PixelAtPlanar | src/image/read/specific_channels.rs:251-289 | in a row of `width * bytes_per_pixel` bytes every column decodes; slot `j` of column `x` is the sample of its channel's type read from bytes `offset*width + x*bps` onward, so the clamp never takes effect; absent slots yield None |
| LineReader.ResolvedReadersFit | src/image/read/specific_channels.rs:302-315 | every resolved reader's sample lies within the pixel's byte width |
| LineReader.SampleWithinRow | src/image/read/specific_channels.rs:253-256 | the run of a channel that fits the pixel stays inside the row for every column |
| LineReader.PixelPrefixError | src/image/read/specific_channels.rs:361-367 | an error in an earlier slot is the error of the whole pixel |
| LineReader.PixelLineReader.ReadNextSample | src/image/read/specific_channels.rs:268-289 | a present cursor decodes from `min(index, len)` and advances by exactly its sample width, even on failure; an absent one yields None and changes nothing |
| LineReader.PixelLineReader.ReadNextPixel | src/image/read/specific_channels.rs:361-367 | reads the slots in order and returns `PixelOf` of the old cursors; on success all cursors advance once; on an error some slot `k` fails while every slot before it decodes, and exactly slots `0` through `k` have advanced |
| ChannelsReader.ChunksExact | src/image/read/specific_channels.rs:181-183 | `chunks_exact`: `len / size` chunks, each of `size` bytes |
| ChannelsReader.ChunksExactAt | src/image/read/specific_channels.rs:183 | chunk `i` is bytes `i*size .. (i+1)*size` of the block |
| ChannelsReader.ExactRowCount | src/image/read/specific_channels.rs:183-184 | data of `height` rows splits into exactly `height` chunks |
| ChannelsReader.BlockRows | src/image/read/specific_channels.rs:177-184 | a block that passes the size check has exactly `height` rows, so the `assert_eq!` never fires |
| ChannelsReader.RowWritesComplete | src/image/read/specific_channels.rs:192-196 | a row whose columns all decode makes one setter call per column, left to right, at `pixel_position + (x, y)`, with that column's pixel |
| ChannelsReader.RowDecodes | src/image/read/specific_channels.rs:192-193 | every column of a row of `width * bytes_per_pixel` bytes decodes, to the pixel its cursors read |
| ChannelsReader.ConcatIndex | src/image/read/specific_channels.rs:189-197 | in rows of equal width, entry `x` of row `k` sits at `k * width + x` |
| ChannelsReader.ConcatLength | src/image/read/specific_channels.rs:189-197 | rows of equal width concatenate to `rows * width` entries |
| ChannelsReader.BlockDecodes | src/image/read/specific_channels.rs:189-193 | every pixel of a block whose rows all have `width * bytes_per_pixel` bytes decodes |
| ChannelsReader.BlockWritesComplete | src/image/read/specific_channels.rs:189-197 | when every pixel decodes, all rows complete, and the block's calls are the rows' calls in row order |
| ChannelsReader.RowEntry | src/image/read/specific_channels.rs:192-196 | when every pixel decodes, row `y` makes `width` calls, and call `x` sets the pixel of column `x` at `pixel_position + (x, y)` |
| ChannelsReader.RowMajorWrites | src/image/read/specific_channels.rs:189-197 | a block whose pixels all decode produces exactly `height * width` setter calls in row-major order, call `y*width + x` being at `origin + (x, y)` with the pixel of column `x` of row `y` |
| ChannelsReader.ReadBlockCallsEveryPixel | src/image/read/specific_channels.rs:176-200 | for a consistent header and a resolved selection, a block passing the size check decodes completely, with one setter call per `(x, y)` in row-major order at `pixel_position + (x, y)` |
| ChannelsReader.ApplyWritesSnoc | src/image/read/specific_channels.rs:195 | one more setter call applies the setter to the storage so far |
| ChannelsReader.RowStep | src/image/read/specific_channels.rs:192-196 | in one column a failing pixel ends the row incomplete; a decoded pixel adds its call at `pixel_position + (x, y)` |
| ChannelsReader.BlockStep | src/image/read/specific_channels.rs:189-197 | an incomplete row ends the block; a complete row adds its calls |
| ChannelsReader.SpecificChannelsReader.ReadBlock | src/image/read/specific_channels.rs:176-200 | a block of the wrong size is rejected with "block size for header" and the storage is untouched; otherwise the storage is the old storage after `BlockWrites`, and the result is Ok iff every pixel decoded, else the end-of-input error |
| ChannelsReader.SpecificChannelsReader.ReadLine | src/image/read/specific_channels.rs:190-196 | a fresh clone of the initial line reader walks the row; the storage receives the row's calls, and the row is Ok iff it completes |
| ChannelsReader.SpecificChannelsReader.IntoChannels | src/image/read/specific_channels.rs:202-207 | hands over the resolved sample types and the current storage |
| ChannelsReader.CreateChannelsReader | src/image/read/specific_channels.rs:122-135 | a deep header is refused before channel inspection; a resolution error is returned before any storage exists; otherwise the storage is created once from the layer's `ChannelsInfo`, and the reader holds the resolved readers |
| ChannelsReader.FilterBlock | src/image/read/specific_channels.rs:172-174 | a block is read iff it is on resolution level (0, 0) |
| Meta.FlatIndex | src/image/read/specific_channels.rs:416-418 | the flat index of a position inside the layer is below its area |
| Meta.FlatIndexInjective | src/image/read/specific_channels.rs:416-418 | two positions inside the layer share a flat index iff they are equal |
| Meta.FlatIndexInverse | src/image/read/specific_channels.rs:416-418 | the column and the row are the flat index's remainder and quotient by the width |
| Meta.BytesPerSample | src/image/read/specific_channels.rs:273 | a sample is 2 bytes wide for f16 and 4 bytes otherwise |
| Meta.DecodeSample | src/image/read/specific_channels.rs:275-279 | decoding fails with an unexpected end of input iff fewer bytes than the sample width remain; otherwise it yields a sample of the slot's type from the leading bytes |
| Meta.ChannelEndsWithinPixel | src/image/read/specific_channels.rs:302-315 | a channel's offset plus its width is at most the pixel's byte width |
| Pixels.Flattened.constructor | src/image/read/specific_channels.rs:406-410 | `Flattened::new` needs exactly `area` samples and keeps them and the resolution |
| Pixels.Flattened.ComputePixelIndex | src/image/read/specific_channels.rs:416-418 | a position inside the layer has an index below the area, from which its column and row can be read back |
| Pixels.CreateFlattened | src/image/read/specific_channels.rs:434-436 | a fresh storage at the layer's resolution holding `area` default pixels |
| Pixels.GetFlattenedPixel | src/image/read/specific_channels.rs:441-443 | the pixel stored at the index whose column and row are the position's |
| Pixels.SetFlattenedPixel | src/image/read/specific_channels.rs:448-451 | only the entry at the position's index changes and the length stays the same; a later get at the position returns the pixel, and every other position keeps its pixel |
| WriteLayers.HeaderBlocks | src/image/write/layers.rs:55-63 | scan lines map to scan lines; tiles keep their tile size and rounding mode and take the channel data's level mode |
| WriteLayers.LayerInferHeaders | src/image/write/layers.rs:50-77 | one header carrying the channel data's channel list, the layer size, the image attributes as shared and the layer attributes as own attributes, and no deep data (not deep, no version, 0 chunks, no sample maximum) |
| WriteLayers.InferredEncodingRoundTrip | src/image/write/layers.rs:53-65 | the layer's encoding can be read back from the header: scan lines stay scan lines, tiles keep size and rounding mode and take the level mode of the channel data, and compression and line order are copied |
| WriteLayers.LayersInferHeaders | src/image/write/layers.rs:35-37 | one header per layer, in layer order, each the single header its layer infers |
| WriteLayers.InferredHeadersAreFlat | src/image/write/layers.rs:70-73 | every inferred header is flat, so the reader's deep check accepts it |
| WriteLayers.LayerCreateWriter | src/image/write/layers.rs:80-87 | panics (unwrap of None) iff no header is given; otherwise the channel writer is created for the first header |
| WriteLayers.LayersCreateWriter | src/image/write/layers.rs:40-46 | makes `min(layers, headers)` writers, pairing layer `i` with `headers[i..i+1]`, and never panics |
| WriteLayers.LayerExtract | src/image/write/layers.rs:96-99 | panics (unwrap of None) iff no header is given; otherwise it extracts with the first header |
| WriteLayers.AllLayersExtractAsWritten | src/image/write/layers.rs:90-99 | the dispatch as written panics on every input: out of bounds iff the layer has no writer, and otherwise at the unwrap iff the empty slice `headers[l..l]` is in range |
| WriteLayers.SingleLayerDispatchPanics | src/image/write/layers.rs:90-99 | for one layer, its header and a block of layer 0, the dispatch as written panics while the corrected one extracts |
| WriteLayers.AllLayersExtract | src/image/write/layers.rs:90-93 | the corrected dispatch succeeds iff the block's layer has a writer and a header, and then it extracts with that layer's writer and header |
| WriteLayers.DispatchRoutesToOwnLayer | src/image/write/layers.rs:34-100 | with headers inferred from the layers and writers built from them, a block of layer `l` is extracted by the writer created for layer `l` with header `l` |

## Left out

- Numeric decoding of samples (`f16::read`, `f32::read`, `u32::read`): their byte order and float semantics are not modelled. A sample is its type tag and its raw bytes, and decoding fails only when too few bytes remain.
- `ContainsNaN` for `Flattened` and the `Debug` impl: a float predicate and formatting only.
- The blanket closure impls of `SetPixel` and `CreatePixels`. The setter and the factory are abstract functions. The setter is modelled as returning the new storage rather than mutating it through `&mut`.
- `PhantomData` markers, `SmallVec` and the `Sync` bound on `LayersWriter`. These are compile-time scaffolding and concurrency, with no behaviour.
- `ChannelList::bytes_per_pixel` is a header field the reader trusts. Its agreement with the channel list (the sum of sample widths) is the predicate `ChannelList.Consistent`, which only the lemmas assume.
- `Vec2::flat_index_for_size` is not part of this model. It is taken to be `y * width + x` for a position inside the layer.
- `TileCoordinates::is_largest_resolution_level` is not part of this model. `Meta.TileCoordinates.IsLargestResolutionLevel` takes it to be `level_index == (0, 0)`.
- `infer_channel_list`, `level_mode`, `create_writer` and `extract_uncompressed_block` of the channel data are not part of this model. They are abstract functions.
- ChannelsReader.SpecificChannelsReader.ReadBlock: `chunks_exact(0)` panics. A block with zero width or zero bytes per pixel that passes the size check is therefore excluded by a precondition, not modelled as a panic.
- ChannelsReader.SpecificChannelsReader.ReadBlock: machine-width arithmetic is not modelled. Integers are unbounded, so a `usize` overflow in `bytes_per_pixel * area`, `pixel_position + (x, y)` or a cursor index does not occur in the model.
- ChannelsReader.SpecificChannelsReader.ReadLine: the inner column loop of `read_block` is a separate method. Its behaviour is the same as the source's, including the early return on the first failing pixel.
- Pixels.GetFlattenedPixel and Pixels.SetFlattenedPixel: positions outside the layer are excluded by a precondition. For such a position the source panics or writes at `y * width + x`, depending on the debug assertion inside `flat_index_for_size`.
- Pixels.Flattened.constructor: the `assert_eq!` panic on a wrong sample count is a precondition.
- The selection is a list of requests of any length instead of the source's 3-tuple. For three slots it agrees with the tuple code (see `SlotOfIsElseIfChain`).
- A slot's sample type is `Option<ChannelInfo>` for required slots too. For a required slot it is always `Some` (`ResolveOk`).

## Findings

| source | as written | input that shows it | evidently intended | confidence | as-written member | corrected member |
|---|---|---|---|---|---|---|
| src/image/write/layers.rs:92 | forwards `&headers[block.layer..block.layer]`, an empty slice, so the layer writer's `headers.first().unwrap()` (line 98) always panics | one layer, its one header, a block with `layer == 0`: panics at the unwrap | forward the one-header slice `&headers[block.layer..block.layer + 1]`, as `Layers::create_writer` pairs them | high (not executed) | WriteLayers.AllLayersExtractAsWritten | WriteLayers.AllLayersExtract |
