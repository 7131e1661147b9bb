# A model of the library's protocol and container code

This project models the parts of the repository in which a mistake would be silent: the
AES decryptor, the H.264 bit streams and the parameter-set transcoder, the MP4 muxer with its
index, signals and slots, the channel and the thread pool, the incremental MD5, Base64, and the
receive loops. `dafny verify dfyconfig.toml` checks it.

- `AesTables`, `Aes`, `AesKeys`, `AesEcb`: the T-table encryptor, the equivalent inverse cipher,
  both key schedules, and the padded ECB layer. Words are four bytes each. `AesField`, `AesVectors`:
  what tables, constants and rounds are in GF(2^8), and the examples of FIPS 197.
- `Bits`, `BitWriter`, `BitReader`, `SpsBits`, `BitIo`: the cached bit writer and reader,
  Exp-Golomb codes, and the second bit reader of the repository. `Seqs` and `Wrappers` are helpers.
- `NalEscape`, `AnnexB`: emulation prevention and the start-code splitter.
- `Transcode`, `Capacity`, `Patcher`: the SPS/PPS id transcoder, first as a function on NAL units with
  the theorems about whole runs, then as it runs on bit streams, caches and id maps, proved to compute
  that function. A decoder of the output keeps the last parameter set received under each id.
- `Mp4Bytes`, `Mp4Boxes`, `Mp4IndexWriter`: boxes, the layout of the `moov` index, and the stack that
  builds it. `Mp4Samples`, `Mp4Direct`, `Mp4Mux`: sample data and descriptors in the sequential and the
  other mode, and the file that the muxer leaves. `Mp4Tree`, `Mp4Nested`: the index as a reader walks it.
  `Mp4Fields`: what stands in its boxes, word by word, in the layouts of ISO/IEC 14496-12.
- `Mp4Demux`: the demuxer's one pass over a file of any bytes. `Mp4Walk`: what it means that the pass
  leaves a box behind or is stranded in it. `Mp4Descriptors`, `Mp4Open`, `Mp4Reach`, `Mp4File`: the
  pass over what the muxer wrote, from descriptors and sample entries up to the file. `Mp4Index`,
  `Mp4RoundTrip`: the lookups in the tables, and the way from a put to the bytes found. `Mp4Foreign`,
  `Mp4Movies`: the pass over boxes and files told by their bytes alone, whoever wrote them.
- `Mp4Sets`, `H264Writer`, `H264Start`, `H264RoundTrip`: the lists of parameter sets, the H.264 writer
  that puts splitter, escapes, transcoder and muxer together, what its first sample is, and the way
  from a stream to the slices and parameter sets read from the file.
- `SigList`, `SigSlot`: the connection list with its cursor, and the objects that refer to each
  other. A called slot may perform any list of operations.
- `Channel`, `Pool`: each critical section is one step, a thread that waits is a thread state, a
  run is any sequence of steps of any threads; the objects are classes that also say where their
  threads stand, and each method is proved to be a step.
- `Md5`, `Base64`, `Framing`: the incremental coders and the receive loops.

Where the code and a comment or a standard disagree, the code is followed: `MP4D_frame_offset` does
not consult a table of at most one chunk; `mvhd` lacks two fields when there is no track; the length
macro for object descriptors counts its own variable down, and its length fields are not those the
reader expects: with a decoder configuration of 1222 bytes, and with some longer ones, the demuxer does
not find the tables of the file, and one of more than 107 bytes is not read back; a 03 at the end of a
NAL unit or in front of a byte above 3 is kept as data; an IDR slice that comes before the first PPS is
dropped, and yet counts as the picture to start with; reads on a closed channel that find the queue
filled in between still take the size down.

Preconditions say what the source asserts or would otherwise violate: fields of at most 16 bits for
the reader and 31 for the writer, Golomb values up to 65534, parameter-set ids below the sizes of the
id maps, room in caller-supplied buffers, and four readable bytes behind data that a reader loads ahead
of. Running out of memory and failing writes are not part of this model.

## Model

| member | source | states |
|---|---|---|
| AesTables.SBoxInverse | crypto/aes.h:340-407 | looking a byte up in the S-box table behind Te4 and the result in the inverse table behind Td4 gives the byte back |
| AesTables.InvSBoxInverse | crypto/aes.h:680-747 | and in the other order |
| Aes.UnmixMix | crypto/aes.h:880-899 | InvMixColumns, as the Td tables compute it on a word, undoes MixColumns, as the Te tables compute it |
| Aes.UnmixXor | crypto/aes.h:880-899 | InvMixColumns distributes over the addition of words, so it can be moved past a round key |
| Aes.EncRoundShape | crypto/aes.h:920-1060 | a round of four table lookups per word is SubBytes, ShiftRows, MixColumns and AddRoundKey |
| Aes.DecRoundShape | crypto/aes.h:1100-1250 | a round of the decryptor is InvShiftRows, InvSubBytes, InvMixColumns and AddRoundKey, in that order |
| Aes.RoundUndone | crypto/aes.h:1100-1250 | a decryption round under the transformed key undoes the addition of that key and the matching encryption round |
| Aes.StatesMeet | crypto/aes.h:1090-1271 | after i rounds of decryption the state is the encryptor's state nrounds - i, both seen before their key, for every i |
| Aes.DecryptEncrypt | crypto/aes.h:909-1271 | section 5.3.5 of FIPS 197: under any schedule that is the reversed and, in the middle, InvMixColumns-transformed one, decryption undoes encryption of every block |
| AesKeys.SetupEncrypt | crypto/aes.h:772-855 | the unrolled filling of the schedule array for 128, 192 and 256 bit keys equals the word-by-word recurrence of section 5.2 of FIPS 197; for any other size 0 rounds, with the first eight words of the key in the array; no word behind is touched |
| AesKeys.ReverseKeys | crypto/aes.h:868-875 | the in-place exchange of round keys from both ends leaves every group of four words at its mirrored place, and what is behind the schedule alone |
| AesKeys.UnmixKeys | crypto/aes.h:877-900 | exactly the middle round keys are replaced, each word by its InvMixColumns through Td0..3 of Te4 |
| AesKeys.SetupDecrypt | crypto/aes.h:861-902 | the schedule array ends up as the reversed, transformed encryption schedule; an unknown key size leaves what aesSetupEncrypt wrote |
| AesKeys.DecScheduleInverts | crypto/aes.h:861-902 | that schedule is the one for which decryption inverts encryption, for every schedule and number of rounds |
| AesKeys.DoEncrypt | crypto/aes.h:909-1088 | the round loop over the schedule computes the block encryption |
| AesKeys.DoDecrypt | crypto/aes.h:1090-1271 | the round loop over the decryption schedule computes the block decryption |
| AesKeys.BlockRoundTrip | crypto/aes.h:772-1271 | for every key of 128, 192 or 256 bits and every block, decryption under aesSetupDecrypt's schedule undoes encryption under aesSetupEncrypt's |
| AesField.XtimeIs | crypto/aes.h:68-135 | the doubling behind the tables is multiplication by x in GF(2^8) modulo x^8 + x^4 + x^3 + x + 1 (section 4.2.1 of FIPS 197) |
| AesField.Multiples | crypto/aes.h:68-679 | the multiples in the Te and Td tables are the products with 02, 03, 09, 0b, 0d and 0e in that field |
| AesField.SBoxIs | crypto/aes.h:340-407 | each byte of the S-box is the affine image (section 5.1.1 of FIPS 197) of the inverse of its index in that field, 0 for 0 |
| AesField.RconIs | crypto/aes.h:748-754 | the round constants are the powers of x in that field, beginning with 1, in the first byte of the word |
| AesField.MixIs | crypto/aes.h:68-339 | MixColumns of a column is its product with the matrix of section 5.1.3 of FIPS 197 |
| AesField.UnmixIs | crypto/aes.h:408-679 | InvMixColumns of a column is its product with the matrix of section 5.3.3 of FIPS 197 |
| AesField.ShiftIs | crypto/aes.h:920-1250 | a round substitutes every byte and moves row r by r places to the left, and back in decryption |
| AesField.BytesAt | crypto/aes.h:756-770 | byte r + 4c of a block is row r of column c of the state |
| AesVectors.Keys1To2 | crypto/aes.h:772-800 | the first two round keys of the example of appendix A.1 of FIPS 197; Keys3To4, Keys5To7 and Keys8To10 give the others |
| AesVectors.KeyA2 | crypto/aes.h:801-820 | the first new word of the expansion of appendix A.2 |
| AesVectors.KeyA3 | crypto/aes.h:821-850 | words 8, 11 and 12 of the expansion of appendix A.3, with the substitution in the middle of a group |
| AesVectors.AppendixB | crypto/aes.h:772-1088 | the ciphertext of appendix B of FIPS 197, from the bytes of the key and the block |
| AesVectors.AppendixBMessage | crypto/aes.h:1299-1345 | the same block as a message: its ciphertext comes first, in two blocks |
| AesEcb.Encrypt | crypto/aes.h:1299-1345 | the loop writes the encryption of the padded message to the front of the buffer and nothing behind it, or answers -1 exactly when the ciphertext does not fit |
| AesEcb.Decrypt | crypto/aes.h:1369-1407 | the loop writes the unpadded message and its length, or answers -1 exactly for a ragged length, a bogus padding byte or a message that does not fit |
| AesEcb.Ciphertext | crypto/aes.h:1299-1345 | the length is 16 * (n / 16 + 1) for n > 0 and 0 for the empty message |
| AesEcb.UnpadPad | crypto/aes.h:1324-1341 | removing the padding gives back every message, multiples of 16 bytes included |
| AesEcb.PadIs | crypto/aes.h:1309-1341 | the padding is 1 to 16 bytes, each of them their number |
| AesEcb.UnpadIff | crypto/aes.h:1390-1404 | the message is what is left without as many bytes as the last one says, if it says 1 to 16, and nothing else is looked at |
| AesEcb.BlocksApart | crypto/aes.h:1312-1326 | block k of the output is block k of the padded message, encrypted on its own |
| AesEcb.RoundTrip | crypto/aes.h:1299-1407 | aesDecrypt recovers bytes and length of every message from aesEncrypt's output |
| AesEcb.EncryptThenDecrypt | crypto/aes.h:1299-1407 | the two functions called one after the other on buffers with enough room return the message and its length |
| BitWriter.BigEndianBits | stream/minimp4.hpp:1893-1896 | a word stored by SWAP32 has, byte by byte, the bits of the word from the most significant on |
| BitWriter.Writer.PutBits | stream/minimp4.hpp:1898-1910 | whatever the fill of the 32-bit cache, the stream grows by exactly the n low bits of val, most significant first |
| BitWriter.Writer.GetPosBits | stream/minimp4.hpp:1914-1919 | the position is the number of bits written |
| BitWriter.Writer.ByteAlign | stream/minimp4.hpp:1921-1925 | zeros are appended up to the next byte boundary, and their end is returned |
| BitWriter.Writer.Flush | stream/minimp4.hpp:1912-1912 | the buffer holds everything written, then zeros to the end of the word |
| BitWriter.Writer.PutGolomb | stream/minimp4.hpp:1941-1949 | the stream grows by the Exp-Golomb code of section 9.1 of ITU-T H.264, for values up to 65534 |
| BitReader.Reader.constructor | stream/minimp4.hpp:1861-1865 | the reader starts at bit 0 of its data |
| BitReader.Reader.SetPosBits | stream/minimp4.hpp:1837-1845 | the next bit read is bit pos |
| BitReader.Reader.FlushBits | stream/minimp4.hpp:1820-1829 | dropping n bits and refilling by 16 keeps the cache equal to the bits at the position, which moves by n |
| BitReader.Reader.ShowBits | stream/minimp4.hpp:1813-1818 | the next n bits as a number, without moving |
| BitReader.Reader.GetBits | stream/minimp4.hpp:1831-1835 | the n bits at the position as a number; the position moves by n |
| BitReader.Reader.GetPosBits | stream/minimp4.hpp:1847-1855 | the position computed from buffer pointer and cache is the number of bits consumed |
| BitReader.Reader.RemainingBits | stream/minimp4.hpp:1857-1859 | the bits of the data behind the position |
| BitReader.Reader.UeBits | stream/minimp4.hpp:1872-1880 | the value of the code at the position, which moves behind it |
| BitReader.UeOfCode | stream/minimp4.hpp:1872-1880 | wherever a written code stands, the reader's definition of a code gives back its value and its length |
| BitIo.WriteAll | stream/minimp4.hpp:1898-1949 | a run of put_bits and put_golomb, aligned and flushed, leaves the concatenated codes and the padding |
| BitIo.ReadAll | stream/minimp4.hpp:1831-1880 | the matching run of get_bits and ue_bits returns the items and consumes exactly their bits |
| BitIo.WriteThenRead | stream/minimp4.hpp:1790-1949 | any sequence of writes is read back exactly, and get_pos_bits is the number of bits written |
| Bits.ByteBits | stream/minimp4.hpp:1893-1896 | the bits of a byte, the one worth 128 first |
| BitWriter.CodeIs | stream/minimp4.hpp:1941-1949 | a code is n zeros, a one, and the n bits that v + 1 has behind its leading one |
| BitWriter.FirstCodes | stream/minimp4.hpp:1941-1949 | the first codes of Table 9-2 of ITU-T H.264 |
| SpsBits.U | stream/sps.hpp:56-66 | the bit-by-bit reader returns the same field as the cached one |
| SpsBits.Ue | stream/sps.hpp:20-43 | it decodes the same code to the same value and length |
| SpsBits.Se | stream/sps.hpp:45-54 | the value is the one that section 9.1.1 of ITU-T H.264 assigns to the code number |
| SpsBits.SeBijective | stream/sps.hpp:45-54 | every integer is the value of exactly one code number |
| SpsBits.SeTable | stream/sps.hpp:45-54 | Table 9-3 of ITU-T H.264: the code numbers from 1 on stand for 1, -1, 2, -2 and so on |
| BitIo.ReadAllSps | stream/sps.hpp:20-66 | a run of u and Ue returns the items of a written stream and consumes exactly their bits |
| BitIo.WriteThenReadSps | stream/sps.hpp:20-66 | any sequence of writes is read back exactly by the other file's reader |
| NalEscape.UnescapeEscape | stream/minimp4.hpp:1983-2031 | removing the escapes undoes inserting them, on every byte string (section 7.4.1.1 of ITU-T H.264) |
| NalEscape.NoStartCode | stream/minimp4.hpp:2014-2031 | an escaped payload contains none of 00 00 00, 00 00 01, 00 00 02 |
| NalEscape.EscapeIff | stream/minimp4.hpp:2014-2031 | a payload is changed if and only if a byte up to 3 follows two zeros in it |
| NalEscape.UnescapeIs | stream/minimp4.hpp:1983-2009 | a unit is rejected if and only if 00 00 00, 00 00 01 or 00 00 02 is in it; else exactly those bytes 03 go that stand between 00 00 and a byte up to 3, so that one at the end of the unit or in front of a larger byte stays |
| NalEscape.Growth | stream/minimp4.hpp:2014-2031 | escaping adds at most half the length |
| NalEscape.PutEsc | stream/minimp4.hpp:2014-2031 | the loop writes a start code and the escaped payload, and returns their length |
| NalEscape.RemoveEscapes | stream/minimp4.hpp:1983-2009 | the loop writes the unescaped payload, or returns 0 exactly when the payload is rejected |
| AnnexB.FindStartCode | stream/minimp4.hpp:2173-2191 | the first start code at or behind the position, with all its leading zeros counted, or the end of the data |
| AnnexB.FindNalUnit | stream/minimp4.hpp:2196-2211 | the bytes between the first start code and the next, without trailing zeros |
| AnnexB.SplitNals | stream/minimp4.hpp:2304-2314 | the writer's loop yields the units of the buffer up to the first empty one |
| AnnexB.UnitsOfStream | stream/minimp4.hpp:2014-2211 | for every list of non-empty units not ending in zero, the concatenated outputs of nal_put_esc split into exactly the escaped units, in order |
| AnnexB.UnitsOfCodes | stream/minimp4.hpp:2173-2314 | a stream of units without start codes in them, each behind two or more zeros and a one, is split into these units, without the zeros behind them |
| AnnexB.StreamRoundTrip | stream/minimp4.hpp:1983-2211 | writing payloads into one stream, splitting it and removing the escapes returns the payloads |
| Patcher.CopyBits | stream/minimp4.hpp:2033-2051 | all bits to the end of the data are copied, less at most seven zeros at the end |
| Patcher.ChangeSpsId | stream/minimp4.hpp:2053-2071 | three bytes, the new id and every later bit up to the stop bit, padded to a byte; the old id is returned |
| Patcher.PatchPps | stream/minimp4.hpp:2073-2093 | the new PPS id, the mapped SPS id and every later bit up to the stop bit, padded |
| Patcher.PatchSliceHeader | stream/minimp4.hpp:2095-2109 | the two leading fields unchanged, the mapped PPS id, and every later bit up to the stop bit |
| Patcher.FindMemCache | stream/minimp4.hpp:1958-1978 | the slot that holds the content, else the first free slot, which then holds it, else -1 |
| Patcher.Patcher.TranscodeNalu | stream/minimp4.hpp:2111-2161 | the whole function, with both passes over a parameter set, is one step of the transcoder model; it answers nothing when a cache is full |
| Transcode.Slot | stream/minimp4.hpp:1958-1978 | no slot is found exactly for empty content or when the content is new and no slot is free; a slot not holding the content is taken only for new content |
| Transcode.FieldsAre | stream/minimp4.hpp:2053-2161 | where the fields stand that are read: the id of an SPS behind three bytes, the ids of a PPS and of its SPS in front, the PPS id of a slice behind two codes; units of other types have none |
| Transcode.KeptPadding | stream/minimp4.hpp:2033-2051 | trimming a padded string that ends in its stop bit gives the string back |
| Transcode.SpsKeyInjective | stream/minimp4.hpp:2128-2146 | two SPS share a cache entry only if they agree in everything but their id |
| Transcode.PpsKeyInjective | stream/minimp4.hpp:2128-2146 | two PPS share a cache entry only if they agree in everything but their own id, the SPS id mapped |
| Transcode.StepKeeps | stream/minimp4.hpp:2111-2161 | one unit: output well formed and of the same meaning, nothing a decoder holds changes, and cache entries stay pairwise distinct and equal to what the decoder holds |
| Transcode.RunKeeps | stream/minimp4.hpp:2111-2161 | the same over every run without cache overflow in which each PPS names an SPS already received |
| Transcode.EverySliceResolves | stream/minimp4.hpp:2095-2161 | each rewritten slice names, for a decoder of the output, the PPS content last received under its own id, bound to the SPS content of that PPS's arrival |
| Transcode.IdsAreNeverReused | stream/minimp4.hpp:1958-1978 | what a decoder of the output holds under an id never changes later in the run |
| Transcode.SameSpsId | stream/minimp4.hpp:2128-2136 | two SPS of a run get the same new id if and only if they agree up to the stop bit apart from their id |
| Transcode.SamePpsId | stream/minimp4.hpp:2137-2146 | two PPS of a run get the same new id if and only if they agree up to the stop bit apart from their ids and named SPS of equal content |
| Transcode.SpsPpsSlice | stream/minimp4.hpp:2111-2161 | an SPS, a PPS that names it and a slice that names the PPS form a run to which the theorems about runs apply, whatever their content |
| Capacity.Contents | stream/minimp4.hpp:1958-2161 | a decoder of the output holds exactly the different contents of the input's parameter sets |
| Capacity.AdmissibleIff | stream/minimp4.hpp:1958-2161 | a run in which every PPS names an SPS already received overflows no cache if and only if it has at most 32 different SPS contents and at most 256 different PPS contents, each with its SPS |
| Mp4Mux.Mux.constructor | stream/minimp4.hpp:846-875 | ftyp at the front, no mdat yet; in non-sequential mode eight more bytes and a write position sixteen bytes on |
| Mp4Mux.Mux.AddTrack | stream/minimp4.hpp:880-898 | an empty track behind the others |
| Mp4Mux.Mux.WritePendingData | stream/minimp4.hpp:975-1006 | the pending sample becomes one more mdat box at the end of the file, its descriptor names exactly those bytes, other tracks are untouched |
| Mp4Mux.Mux.AddSampleDescriptor | stream/minimp4.hpp:1008-1016 | a descriptor with the write position as offset and the track's duration for 0 |
| Mp4Mux.Mux.PutSample | stream/minimp4.hpp:1126-1179 | every invariant of the file, of the descriptors with their durations and random access flags, and of the sizes is kept by every put; a continuation without a sample is refused exactly in non-sequential mode |
| Mp4Mux.Mux.FlushIndex | stream/minimp4.hpp:1211-1764 | behind the data stands the index built from the tracks as they then are; in sequential mode every descriptor names its sample and no two overlap, in the other mode if and only if continuations stayed adjacent |
| Mp4Mux.WriteFile | stream/minimp4.hpp:846-1764 | for every interleaving of puts over any number of tracks: sequential mode stores each sample, the file being ftyp, one mdat box per pending sample, and the index of the tracks; in non-sequential mode all samples are stored and their stretches disjoint if and only if no bytes of a continuation are written behind bytes of another track; durations and flags are those put |
| Mp4Samples.LeadSpoilsFirst | stream/minimp4.hpp:975-1006 | in sequential mode the first stretch is the first sample if and only if the leading continuations carry no data |
| Mp4Samples.TimedPut | stream/minimp4.hpp:1008-1016 | a put gives its descriptor its duration, or the track's own for 0, and its random access flag, and leaves those of all others |
| Mp4Samples.LengthIs | stream/minimp4.hpp:1008-1016 | the duration that was put, or the track's own for 0 |
| Mp4Samples.Conserved | stream/minimp4.hpp:1126-1179 | the samples of a track, behind the continuations that come too early, are all the bytes put for it, in their order |
| Mp4Samples.StartsAre | stream/minimp4.hpp:1126-1179 | the puts for the track that are no continuations start its samples, and each sample begins with the bytes of its own |
| Mp4Direct.DirectStep | stream/minimp4.hpp:1154-1177 | each put in non-sequential mode: while continuations stay adjacent all samples stay stored and apart, the first one that does not makes two descriptors overlap, and they overlap ever after |
| Mp4Mux.InterleavedContinuation | stream/minimp4.hpp:1154-1177 | a run in non-sequential mode whose descriptors overlap: a continuation behind another track's put |
| Mp4Mux.EarlyContinuation | stream/minimp4.hpp:975-1006 | a run in sequential mode whose first sample is not stored as put: a continuation in front of it |
| Mp4Direct.DirectBoxes | stream/minimp4.hpp:1246-1269 | the patched header makes the boxes behind ftyp reach exactly to the index, with a 32-bit or a 64-bit size |
| Mp4File.ParseMdats | stream/minimp4.hpp:975-1006 | reading the mdat boxes by their size fields alone gives exactly the bodies written |
| Mp4IndexWriter.Writer.Atom | stream/minimp4.hpp:760-763 | a box is opened inside the innermost one, its size field unfilled |
| Mp4IndexWriter.Writer.EndAtom | stream/minimp4.hpp:754-758 | the innermost box is closed: its size field becomes its extent, and it is content of the box around it |
| Mp4IndexWriter.Writer.Patch | stream/minimp4.hpp:748-752 | WR4 replaces the first four bytes of the open box's content and nothing else |
| Mp4IndexWriter.PutRuns | stream/minimp4.hpp:1623-1640 | the loop writes the maximal runs of equal durations and patches their number in front |
| Mp4IndexWriter.PutOdLength | stream/minimp4.hpp:1488-1494 | a length field of one byte for each further 127, the counter left with what remains |
| Mp4IndexWriter.OdSizeOfSize | stream/minimp4.hpp:1184-1189 | the length of that field |
| Mp4IndexWriter.ItemsCount | stream/minimp4.hpp:924-933 | the entries of a length-prefixed list |
| Mp4IndexWriter.WriteDescriptors | stream/minimp4.hpp:1481-1521 | the three descriptors of an esds box with their lengths computed from the inside |
| Mp4IndexWriter.WriteVideoEntry | stream/minimp4.hpp:1525-1612 | the avc1 entry with its avcC record |
| Mp4IndexWriter.WriteChunkOffsets | stream/minimp4.hpp:1665-1683 | stco, or co64 when the last offset needs more than 32 bits |
| Mp4IndexWriter.WriteStss | stream/minimp4.hpp:1685-1704 | the sync table is left out exactly when every sample is a random access point |
| Mp4IndexWriter.WriteTrak | stream/minimp4.hpp:1348-1707 | all boxes of a track, nested as specified; Mp4Fields.TrackSays says what stands in them |
| Mp4IndexWriter.WriteTraks | stream/minimp4.hpp:1319-1708 | one trak box for each track that has samples, numbered by its place among all tracks |
| Mp4IndexWriter.BuildIndex | stream/minimp4.hpp:1211-1764 | the stack of size positions produces the boxes nested one in the other with every size field equal to the extent, in at most index_bytes bytes |
| Mp4Boxes.MoovFits | stream/minimp4.hpp:1219-1241 | for any number of tracks and samples and any lengths of DSI, parameter sets and comment, the index is shorter than index_bytes, with AVC, audio or private tracks; a track without samples may be of any kind |
| Mp4Boxes.DsiWhole | stream/minimp4.hpp:1487-1520 | the DSI is written whole if and only if it has at most 127 bytes, because the length macro counts its variable down |
| Mp4Bytes.ChildrenOfCat | stream/minimp4.hpp:754-768 | boxes whose size fields are their extents are found again, all and in order, by their size fields alone |
| Mp4Tree.MoovChildren | stream/minimp4.hpp:1273-1758 | the size field of moov is its extent, and walking its content by size fields gives exactly mvhd, one trak per track with samples, and the comment |
| Mp4Tree.TrakChildren | stream/minimp4.hpp:1348-1707 | walking a trak gives tkhd and mdia and nothing else |
| Mp4Tree.MdiaChildren | stream/minimp4.hpp:1384-1706 | walking mdia gives mdhd, hdlr and minf |
| Mp4Tree.MinfChildren | stream/minimp4.hpp:1418-1705 | walking minf gives the media header, if the kind of track has one, dinf and stbl |
| Mp4Tree.StblChildren | stream/minimp4.hpp:1451-1704 | walking stbl gives stsd, stts, stsc, stsz, the chunk offsets, and stss unless it is left out |
| Mp4Nested.MoovNested | stream/minimp4.hpp:1273-1758 | from moov down to sample entries, esds, avcC, data references and the comment, every size field is the extent of its box and the boxes inside a box fill it without gap |
| Mp4Fields.MvhdSays | stream/minimp4.hpp:1274-1317 | mvhd, word by word: time scale 1000, the duration of the first track in milliseconds, rate, volume, matrix and the next track id |
| Mp4Fields.TkhdSays | stream/minimp4.hpp:1349-1382 | tkhd: flags 7, the id, the duration in milliseconds, volume, matrix, and for video the width and the height |
| Mp4Fields.MdhdSays | stream/minimp4.hpp:1385-1397 | mdhd: the time scale, then the sum of the durations, then the language packed in 15 bits |
| Mp4Fields.HdlrSays | stream/minimp4.hpp:1399-1416 | hdlr: soun, vide or gesm for audio, video and private tracks, and the name |
| Mp4Fields.AudioSays | stream/minimp4.hpp:1453-1522 | the mp4a or mp4s entry: channels and rate, and an esds box with the object type, the stream type and the configuration |
| Mp4Fields.VideoSays | stream/minimp4.hpp:1525-1612 | the avc1 entry: width and height at their places, and an avcC box with profile and level from the SPS and both lists with their numbers |
| Mp4Fields.StssSays | stream/minimp4.hpp:1685-1704 | stss, unless it is left out, lists in order exactly the numbers, from 1, of the samples that are random access points |
| Mp4Fields.TrackSays | stream/minimp4.hpp:1348-1707 | a whole track: each box at its place says the above of the track, and its tables those of its samples |
| Mp4Fields.CommentSays | stream/minimp4.hpp:1710-1736 | the comment: a meta box for metadata, and the text in the data box |
| Mp4Fields.MovieSays | stream/minimp4.hpp:1273-1758 | the whole index, walked by size fields: mvhd, each track with samples under its own id, and the comment, with what they say of the tracks |
| Mp4Fields.SyncFound | stream/minimp4.hpp:1685-1704 | a reader of the sync table, or of its absence, finds for each sample whether it is a random access point |
| Mp4Demux.ReadTagLength | stream/minimp4.hpp:2736-2751 | the length of a descriptor is that of seven bits from each byte, in 64 bits, up to the first byte below 128 |
| Mp4Demux.ReadAvc | stream/minimp4.hpp:2996-3034 | the end of the parameter sets in an avcC box, SPS counted in five bits and PPS in eight, or nothing when a read goes beyond the box |
| Mp4Demux.Open | stream/minimp4.hpp:2536-3164 | for a file of any bytes the loop over its stack of open boxes finds what the pass as a function finds: sizes in 32 or 64 bits or to the end of the file, boxes cut to what is left around them, versions, meta boxes without version, sample entries, descriptors and avcC records |
| Mp4Foreign.SttsFound | stream/minimp4.hpp:2816-2845 | an stts box with at least the entries it counts is found, whatever is behind them; with fewer the pass ends there |
| Mp4Foreign.StscFound | stream/minimp4.hpp:2805-2815 | the same of stsc |
| Mp4Foreign.StszFound | stream/minimp4.hpp:2773-2803 | the same of stsz, with a size for all samples or one for each |
| Mp4Foreign.StcoFound | stream/minimp4.hpp:2857-2875 | the same of stco |
| Mp4Foreign.Co64Found | stream/minimp4.hpp:2857-2875 | the same of co64 |
| Mp4Foreign.CttsPassed | stream/minimp4.hpp:2846-2856 | a ctts box adds nothing, but must have its entries |
| Mp4Foreign.HdlrPassed | stream/minimp4.hpp:2905-2914 | a hdlr box of a track needs eight bytes, one in a meta box none |
| Mp4Foreign.BtrtPassed | stream/minimp4.hpp:2916-2923 | a btrt box needs twelve bytes |
| Mp4Foreign.MdhdPassed | stream/minimp4.hpp:2886-2903 | mdhd of version 0 needs 18 bytes behind version and flags, of version 1 it needs 30 |
| Mp4Foreign.MvhdPassed | stream/minimp4.hpp:2878-2884 | mvhd of version 0 needs 16 bytes, of version 1 it needs 28 |
| Mp4Foreign.OthersPassed | stream/minimp4.hpp:2585-2638 | a box of any type outside the 29 that the demuxer knows is passed over, with a size in 32 or 64 bits |
| Mp4Foreign.WrappersEntered | stream/minimp4.hpp:2602-2638 | moov, mdia, tref, minf, dinf, stbl, hvc1, udta and ilst are entered behind eight bytes, unless 63 boxes are open |
| Mp4Foreign.TrakEntered | stream/minimp4.hpp:3108-3124 | trak is entered with a new track of which nothing is known |
| Mp4Foreign.EntriesEntered | stream/minimp4.hpp:2945-2994 | mp4a is entered behind 28 bytes of fields, mp4v and avc1 behind 78, mp4s behind 8, whatever they hold |
| Mp4Foreign.StsdEntered | stream/minimp4.hpp:2941-2943 | stsd is entered behind its count |
| Mp4Foreign.EsdsEntered | stream/minimp4.hpp:2602-2607 | what is in esds is read as descriptors |
| Mp4Foreign.MetaEntered | stream/minimp4.hpp:3124-3128 | a meta box with a version ends the track and is entered |
| Mp4Foreign.VersionRefused | stream/minimp4.hpp:2572-2590 | inside a box, mdhd and mvhd above version 1 and the other full boxes above version 0 are errors |
| Mp4Foreign.TrackMissing | stream/minimp4.hpp:2590-2600 | inside a box, tables, media headers, sample entries and descriptors without a track are errors |
| Mp4Foreign.AvcFound | stream/minimp4.hpp:2996-3034 | of an avcC box both lists are kept with their numbers, whatever profile and level say and whatever is behind the lists |
| Mp4Foreign.InfoFound | stream/minimp4.hpp:3069-3083 | the first decoder configuration of a track is kept, its length coded in one to four bytes |
| Mp4Foreign.ConfigEntered | stream/minimp4.hpp:3056-3067 | the descriptors in a decoder descriptor begin behind 13 bytes |
| Mp4Foreign.EsEntered | stream/minimp4.hpp:3036-3054 | those in an ES descriptor begin behind its id and flags and behind the stream id, the URL and the clock id that its flags call for |
| Mp4Foreign.FieldsMissing | stream/minimp4.hpp:3036-3067 | without these 13 bytes, or the first three of an ES descriptor, the pass ends |
| Mp4Foreign.SecondInfo | stream/minimp4.hpp:3069-3083 | a second configuration is not kept, but entered |
| Mp4Foreign.OtherTagPassed | stream/minimp4.hpp:2585-2638 | a descriptor with any other tag is passed over |
| Mp4Movies.BadSize | stream/minimp4.hpp:2653-2685 | sizes of 2 to 7, and 64-bit sizes below 16, end the pass at the top level and are errors inside a box |
| Mp4Movies.TooFew | stream/minimp4.hpp:2645-2665 | fewer than eight bytes at the end of the file are no box |
| Mp4Movies.RestOfFile | stream/minimp4.hpp:2660-2668 | at the top level a size of 0 or 2^32 - 1 stands for the rest of the file |
| Mp4Movies.OpenMoov | stream/minimp4.hpp:2660-3164 | what such a moov box holds is found as in any other |
| Mp4Movies.CutToFit | stream/minimp4.hpp:2760-2772 | a box larger than what is left around it is all that is left, and nothing is read of it |
| Mp4Movies.MetaWithoutVersion | stream/minimp4.hpp:2693-2713 | a meta box whose third word is a size that fits has no version and is entered four bytes earlier |
| Mp4Movies.TablesInAnyOrder | stream/minimp4.hpp:2773-2875 | of any boxes in any order the last table of each type is found, and its width for chunk offsets |
| Mp4Movies.TracksFound | stream/minimp4.hpp:2536-3164 | of a file with one moov box among others, any number of tracks among its boxes are found, in their order |
| Mp4Movies.VisualFound | stream/minimp4.hpp:2536-3155 | an MPEG-4 Part 2 track, with an mp4v entry of any 78 bytes of fields and an esds box whose descriptors are in range, is found with that configuration and with its tables, whatever their order |
| Mp4Movies.VisualFile | stream/minimp4.hpp:2536-3164 | a file with any number of such tracks and an mvhd of either version is opened with all of them |
| Mp4Descriptors.ReadBackIs | stream/minimp4.hpp:1488-2751 | a length of at most 127 is read as it was written, a longer one as more than there is, and from nine bytes 0xff on as 128 less than 2^64 and the last byte |
| Mp4Descriptors.WholeFills | stream/minimp4.hpp:1481-3083 | descriptors whose outer length has one byte are read through, and the decoder configuration is kept |
| Mp4Descriptors.CutFills | stream/minimp4.hpp:1481-2805 | descriptors whose outer length is read as more than there is are passed over as one box |
| Mp4Descriptors.AstrayStrands | stream/minimp4.hpp:1481-3155 | where the outer length wraps around to no more than there is, the pass finds no table any more, whatever follows |
| Mp4Descriptors.AstrayStuck | stream/minimp4.hpp:2727-3155 | a pass that is inside descriptors with more bytes left than the file has never leaves them: each turn keeps position and bytes left together beyond the file |
| Mp4Descriptors.ShortEnough | stream/minimp4.hpp:1488-2805 | a decoder configuration of at most 1221 bytes does not lead the pass astray |
| Mp4Descriptors.FirstUnbounded | stream/minimp4.hpp:1488-2805 | one of 1222 does: the outer length 1260 is written as nine bytes 0xff and 0x75 |
| Mp4Open.ConfigReadIff | stream/minimp4.hpp:1481-3083 | a decoder configuration in descriptors is read back if and only if it has at most 107 bytes; otherwise nothing is |
| Mp4Open.ListsRead | stream/minimp4.hpp:1525-3034 | up to 31 SPS and 255 PPS in an avcC box are read back, with their numbers |
| Mp4Reach.TrakPasses | stream/minimp4.hpp:1348-3155 | in a trak box whose sample entry can be read the pass finds every table as written and the decoder configuration, and leaves it |
| Mp4Reach.TrakStrands | stream/minimp4.hpp:1348-3155 | in one whose sample entry cannot be read the pass finds no table of this or any later track |
| Mp4Reach.MoovPasses | stream/minimp4.hpp:1273-3155 | an index with entries that can be read is read whole: all tables of all tracks with samples, in order |
| Mp4Reach.MoovStrands | stream/minimp4.hpp:1273-3155 | otherwise nothing is found from the first such track on |
| Mp4File.FileStrands | stream/minimp4.hpp:846-3164 | if such a file is opened at all, the tracks in front of the first one that cannot be read are found, and that one without a table |
| Mp4File.OpenedIff | stream/minimp4.hpp:846-3164 | in a file that ends in an index, every table of every track is found if and only if every sample entry can be read |
| Mp4File.SeqMoov | stream/minimp4.hpp:846-2700 | the boxes of a file written in sequential mode are ftyp, one mdat for each body, and the index |
| Mp4File.DirectMoov | stream/minimp4.hpp:1246-2700 | the boxes of a file written in the other mode are ftyp, a 64-bit mdat or an empty free box and a 32-bit mdat, and the index |
| Mp4Index.SampleToChunk | stream/minimp4.hpp:3168-3194 | the chunk that the expanded table gives for the sample and the first sample in it; -1 exactly behind the table when there are several chunks |
| Mp4Index.FrameOffset | stream/minimp4.hpp:3196-3232 | the chunk's offset plus the sizes of the earlier samples in it, with size, time and duration of the sample |
| Mp4Index.ReadSizes | stream/minimp4.hpp:2775-2803 | the common size, or each entry |
| Mp4Index.ReadOffsets | stream/minimp4.hpp:2857-2875 | 32-bit or 64-bit chunk offsets |
| Mp4Index.ReadGroups | stream/minimp4.hpp:2805-2815 | first chunk and samples per chunk of every entry |
| Mp4Index.ReadTimes | stream/minimp4.hpp:2817-2844 | runs are expanded, and each timestamp is the sum of the earlier durations mod 2^32 |
| Mp4RoundTrip.ExpandRuns | stream/minimp4.hpp:1623-1640 | expanding the run-length coded durations gives every duration back |
| Mp4RoundTrip.SttsRoundTrip | stream/minimp4.hpp:1622-2844 | reading the written stts box restores durations and timestamps |
| Mp4RoundTrip.ReadChunkOffsets | stream/minimp4.hpp:1665-2875 | offsets in order are read back although only the last decides on their width |
| Mp4RoundTrip.FrameRoundTrip | stream/minimp4.hpp:1622-3232 | MP4D_frame_offset on the written tables returns place, size, time and duration of every sample |
| Mp4RoundTrip.WriteThenOpen | stream/minimp4.hpp:846-3164 | for every interleaving of puts over any tracks, in both modes, the file written is opened with all tables of all tracks with samples if and only if the descriptors and parameter-set lists of all of them can be read; and its index, walked by size fields, says of every track what was put |
| Mp4RoundTrip.SampleRoundTrip | stream/minimp4.hpp:846-3232 | from such a file the reader gets each sample's bytes with its continuations, its duration, as timestamp the sum of the earlier durations mod 2^32, and the track's decoder configuration, and a reader of the sync table whether the put called it a random access point; in sequential mode the bytes are the sample's own if and only if it is not the first or no continuation came before it |
| Mp4RoundTrip.LongConfiguration | stream/minimp4.hpp:935-3164 | a private track with a decoder configuration of 1222 bytes and one sample: the tables written for it are not found |
| Mp4Sets.AppendMem | stream/minimp4.hpp:909-922 | the list of length-prefixed sets grows by the new one exactly if it is not in it |
| Mp4Sets.ReadSet | stream/minimp4.hpp:3264-3319 | the n-th SPS or PPS of what is kept of an avcC box, or nothing behind the last |
| H264Writer.H26xWriter.WriteUnit | stream/minimp4.hpp:2318-2385 | one unit of the stream: delimiters are skipped, refused escapes and units in front of any SPS end the call, parameter sets and samples reach the muxer rewritten and escaped, and the transcoder is where the run of all units so far leads it |
| H264Writer.H26xWriter.WriteNal | stream/minimp4.hpp:2304-2385 | the same for all units of a buffer, up to the first one that is refused |
| H264Start.FirstIsIdr | stream/minimp4.hpp:2356-2385 | the first unit that goes into a sample belongs to an IDR picture unless an IDR slice came before the first PPS |
| H264Start.OtherFirstIff | stream/minimp4.hpp:2356-2385 | with both kinds of parameter sets there and nothing in a sample yet, a unit of another picture is taken if and only if an IDR slice came before the first PPS |
| H264Start.EarlyIdr | stream/minimp4.hpp:2356-2385 | an SPS, an IDR slice, the PPS and a slice of another picture: that slice is the first in a sample |
| H264Start.SampledFromThenOn | stream/minimp4.hpp:2356-2385 | from the first unit that goes into a sample on, every unit that is no parameter set does |
| H264RoundTrip.BegunIs | stream/minimp4.hpp:2367-2382 | over every run the i-th sample starts with the unit that begins the i-th picture: its duration is the one given with that unit, and it is a random access point if and only if that unit has payload type 5 |
| H264RoundTrip.BeginsIff | stream/minimp4.hpp:2363-2375 | a unit begins a picture if and only if its first_mb_in_slice is 0 |
| H264RoundTrip.ShapedIs | stream/minimp4.hpp:2363-2375 | over every run each picture begins with such a unit and holds no other |
| H264RoundTrip.AllInPictures | stream/minimp4.hpp:2318-2385 | and from the first sample on the pictures hold every unit but the parameter sets |
| H264RoundTrip.CollectedIs | stream/minimp4.hpp:909-2385 | over every run the lists the muxer has hold exactly the parameter sets that a decoder of the rewritten stream holds |
| H264RoundTrip.MadeIs | stream/minimp4.hpp:1126-2385 | over every run each sample consists of the rewritten units of one picture, each behind its length |
| H264RoundTrip.SliceAmongAll | stream/minimp4.hpp:2095-2161 | a rewritten slice still names what it named when all later parameter sets have come as well |
| H264RoundTrip.StreamTaken | stream/minimp4.hpp:1983-2385 | a byte stream that nal_put_esc wrote is taken as the units it was written from |
| H264RoundTrip.PictureRoundTrip | stream/minimp4.hpp:846-3319 | what was written with mp4_h26x_write_nal is put into a file and read again: the i-th sample gives the rewritten units of the i-th picture, the parameter sets read give a decoder just those of the rewritten stream, and under them each slice names what its PPS id named when it came; its duration is the one given with the first unit, and it is marked as a random access point if and only if that unit has payload type 5 |
| H264RoundTrip.StreamRoundTrip | stream/minimp4.hpp:846-3319 | the same from a byte stream of escaped units on |
| H264RoundTrip.OnePicture | stream/minimp4.hpp:2304-2385 | an SPS, a PPS that names it and the first slice of an IDR picture form such a stream, whatever their content |
| SigSlot.Signal.Connect | sigslot.hpp:549-553 | one more connection at the end, and the signal among the receiver's senders |
| SigSlot.Signal.Erase | sigslot.hpp:407-415 | erasing a node moves a cursor on it to the next node and leaves any other cursor |
| SigSlot.Signal.Disconnect | sigslot.hpp:401-420 | the first connection to the receiver is erased and the signal leaves its senders; nothing happens without one |
| SigSlot.Signal.DisconnectAll | sigslot.hpp:373-385 | no connection is left, the cursor is at the end, no former receiver has the signal as sender |
| SigSlot.Signal.SlotDisconnect | sigslot.hpp:423-446 | exactly the connections to the receiver go, one erasure after the other; the cursor stays on the first survivor at or behind its place |
| SigSlot.Signal.SlotDuplicate | sigslot.hpp:448-463 | as many connections to the new receiver follow as there are to the old one |
| SigSlot.Signal.Copy | sigslot.hpp:357-366 | the same receivers in the same order, each with the copy among its senders |
| SigSlot.Receiver.Copy | sigslot.hpp:486-495 | the same senders, each with duplicated connections |
| SigSlot.Receiver.DisconnectAll | sigslot.hpp:516-531 | no sender is left and every former sender has dropped exactly its connections to the receiver |
| SigSlot.Perform | sigslot.hpp:357-553 | what each operation does to the list of every signal and the senders of every receiver; both sides stay in step, with disconnect if and only if there was at most one connection of the pair |
| SigSlot.DisconnectTwin | sigslot.hpp:401-420 | a receiver connected twice and disconnected once is left with a connection whose signal its senders do not name |
| SigSlot.CopySignal | sigslot.hpp:357-366 | copying a signal keeps both sides in step |
| SigSlot.CopyReceiver | sigslot.hpp:486-495 | copying a receiver does |
| SigSlot.DestroySignal | sigslot.hpp:351-351 | a destroyed signal is in no sender set, and the rest stays in step |
| SigSlot.DestroyReceiver | sigslot.hpp:497-497 | a destroyed receiver is the destination of no connection, and the rest stays in step |
| SigSlot.Emit | sigslot.hpp:555-563 | an emission whose slots perform any operations re-entrantly: at each turn the cursor steps over a node and everything held by signals and receivers changes by exactly the operations of that slot; it ends and leaves no dangling cursor |
| SigSlot.RemovedByTarget | sigslot.hpp:401-446 | a connection leaves the list during a call only if that call's slot disconnects it, empties the list or takes its receiver out |
| SigSlot.QuietTurn | sigslot.hpp:555-563 | a slot that does nothing leaves the list as it is, the cursor one node on |
| SigSlot.UntargetedFires | sigslot.hpp:555-563 | every connection present at the start is called unless the slot of an earlier connection takes it out |
| SigList.EraseChanges | sigslot.hpp:401-446 | erasing keeps the order of nodes and a live cursor at the first survivor |
| SigList.InitialFires | sigslot.hpp:555-563 | every connection present at the start is called unless a call before its turn removes it |
| SigList.FiresExactly | sigslot.hpp:555-563 | it is called if and only if no call before its turn removes it |
| SigList.DropAllKeeps | sigslot.hpp:423-446 | erasing all connections to a receiver keeps the others, their order and a live cursor |
| SigList.PendingFires | sigslot.hpp:555-563 | the same for any connection at or behind the cursor at any time of the emission |
| SigList.FiresInOrder | sigslot.hpp:555-563 | calls happen in connect order, so none happens twice |
| SigList.RemovedNeverFires | sigslot.hpp:373-446 | a removed connection is not called |
| SigList.LateConnectionWaits | sigslot.hpp:555-563 | the emission is over once the cursor is at the end, so a connection appended then is not called |
| Channel.Queue.Write | channel.hpp:173-178 | the locked part of a write is its step of the run relation, on the queue object: what was pushed grows by the value, and the accounting of queue, size and readers stays true |
| Channel.Queue.BeginRead | channel.hpp:187-195 | the locked part of a read up to its wait is its step: it takes the size down first, waits exactly on an empty open channel, and otherwise returns what it adds to the values popped |
| Channel.Queue.EndRead | channel.hpp:190-195 | the end of a read is its step: the front value, or nothing exactly when the queue is empty, after close |
| Channel.Queue.CloseAll | channel.hpp:198-202 | closing is its step, and keeps the accounting |
| Channel.Drive | channel.hpp:152-204 | any number of threads on one channel object under any schedule go through the states that the run relation prescribes: the values read are those written, in order, the rest is in the queue, at most the capacity and one for each reader that waits or left empty-handed |
| Channel.StepKeeps | channel.hpp:152-204 | each step of each thread keeps the accounting of queue, size, waiting and empty-handed readers |
| Channel.Fifo | channel.hpp:152-204 | in every state of every run: popped is a prefix of pushed with the queue between them, size is queue less waiting readers less empty-handed returns, those only after close, size at most the capacity |
| Channel.NoMutualWait | channel.hpp:152-157 | a writer's and a waiting reader's predicates are never false together |
| Channel.WriteGoesOn | channel.hpp:155-179 | a writer goes on if and only if the size is below the capacity, and then its value is the last of the queue; on an open channel it does whenever fewer values than the capacity are queued |
| Channel.WriteBegins | channel.hpp:166-172 | a write begins unless the channel is closed, and then changes nothing |
| Channel.ReadGoesOn | channel.hpp:152-196 | a waiting reader goes on if and only if a value is there or the channel is closed, and any other reader always does |
| Channel.Rendezvous | channel.hpp:155-157 | on an open unbuffered channel a push happens only while more readers wait than values are queued |
| Channel.ClosedForGood | channel.hpp:168-204 | a closed channel stays closed and no write begins on it |
| Channel.ReadGetsFront | channel.hpp:184-196 | a read that begins on a channel holding values, closed or not, and is not overtaken, returns the front one |
| Channel.ClosedRead | channel.hpp:184-187 | a read that begins on a closed channel ends there if it finds it empty, without touching size or queue, and goes on if it does not |
| Channel.EmptyHanded | channel.hpp:184-196 | a read without a value on a closed channel that held one has been overtaken: another reader took it in between |
| Channel.ReadAlone | channel.hpp:184-196 | the whole of a read on the channel object while no other thread moves: the front value, closed or not; on a closed empty channel nothing, with size and queue as they are; on an open empty one it waits |
| Channel.ReadOut | channel.hpp:184-196 | after close, reads one after the other deliver the n values of the queue, in order, and a further one ends at once |
| Channel.CloseThenRead | channel.hpp:184-204 | a value written on a channel of capacity 1 and then closed is read after it |
| Pool.TaskQueue.Enqueue | pool.hpp:66-76 | the locked part of enqueue is its step of the run relation: refused exactly after stop, else the task is the last one accepted and a notify is owed |
| Pool.TaskQueue.Take | pool.hpp:41-51 | a worker with the lock makes its step: it waits, exits or starts the front task |
| Pool.TaskQueue.Stop | pool.hpp:81-85 | the locked part of the destructor is its step: from then on a notify_all is owed |
| Pool.Drive | pool.hpp:30-89 | any number of workers on one pool object under any schedule go through the states that the run relation prescribes: tasks are started in the order in which they were accepted, none twice and none left out |
| Pool.StepKeeps | pool.hpp:36-89 | each step of workers, callers and destructor keeps the accounting of tasks and wake-ups |
| Pool.CheckTakes | pool.hpp:41-58 | a worker at the lock takes the front task while there is one, stopped or not; on an empty queue it returns after stop and sleeps before |
| Pool.CallsDo | pool.hpp:66-89 | a task is accepted exactly before stop and a notify is owed for it, a notify wakes one sleeper if there is any, and the destructor's wakes all |
| Pool.StartedInOrder | pool.hpp:36-76 | tasks start in the order of their acceptance, and every started task is completed or in one worker's hands, once |
| Pool.NoLostWakeup | pool.hpp:43-76 | queued work with every worker asleep means that a notify is still to come |
| Pool.AllCompleteAtJoin | pool.hpp:79-89 | when all workers have exited, every accepted task has completed exactly once if and only if there was a worker or no task |
| Pool.EveryStepCounts | pool.hpp:79-89 | after notify_all every worker step brings the number of steps left down |
| Pool.SomeoneCanStep | pool.hpp:41-58 | and a worker that has not exited can always make one |
| Pool.StuckIffExited | pool.hpp:41-58 | after notify_all no worker has a step to make if and only if all have returned |
| Pool.JoinsReturn | pool.hpp:79-89 | from notify_all on the workers make at most the number of steps that are left, whatever else happens, and when they can make none, all have returned and every accepted task has been completed once, if there was a worker |
| Md5.CounterAdd | crypto/md5.h:368-372 | the two-word update with carry adds 8 times the bytes mod 2^64 |
| Md5.CounterTail | crypto/md5.h:362-362 | the offset computed from the counter is the number of bytes behind the last whole block |
| Md5.Hasher.constructor | crypto/md5.h:351-357 | the state of the empty message |
| Md5.Hasher.Append | crypto/md5.h:359-393 | counter, digest words and buffer are those of the longer message: 8 times its length mod 2^64, the fold over its whole blocks, the bytes behind them |
| Md5.PadCount | crypto/md5.h:407-407 | the computed padding is the one that leaves eight bytes in the last block |
| Md5.PaddedIs | crypto/md5.h:395-408 | what is hashed: the message, 0x80, fewer than 64 zeros, and the length in bits mod 2^64, lowest byte first, in blocks of 64 |
| Md5.BytesAre | crypto/md5.h:409-410 | the sixteen bytes of the digest: each word with its lowest byte first |
| Md5.InitialIs | crypto/md5.h:351-357 | the words that the digest begins with are the bytes of section 3.3 of RFC 1321 |
| Md5.CounterBytes | crypto/md5.h:404-405 | the eight length bytes are the 64-bit length in bits, lowest byte first |
| Md5.Hasher.Finish | crypto/md5.h:395-413 | the digest of the whole message: padded, folded, serialised (sections 3.1 to 3.5 of RFC 1321) |
| Md5.HashPieces | crypto/md5.h:351-413 | the digest does not depend on how the message is split into appends |
| Base64.EncodeBytes | crypto/base64.h:55-102 | the loop with its group arrays computes the encoding |
| Base64.DecodeText | crypto/base64.h:109-159 | the loop computes the decoding of the characters in front of the first that is none |
| Base64.FindChar | crypto/base64.h:45-53 | is_base64 holds exactly for the 64 characters of the alphabet, and looking up any other gives 255 |
| Base64.Alphabet | crypto/base64.h:41-43 | Table 1 of RFC 4648: A to Z, a to z, 0 to 9, plus and slash, and the equals sign as pad |
| Base64.EncodeIs | crypto/base64.h:55-102 | every three bytes are the four digits in base 64 of their number in base 256; of a last group of one or two the missing characters are equals signs |
| Base64.GroupsAre | crypto/base64.h:109-159 | four characters are three bytes likewise; of a last group of two or three the bits beyond the last whole byte are dropped, and a single last character is dropped |
| Base64.PrefixIs | crypto/base64.h:117-120 | decoding stops in front of the first character that is not in the alphabet |
| Base64.TailOctets | crypto/base64.h:136-155 | in the 1- and 2-byte tails the fillers read as 255 do not reach the bytes kept |
| Base64.DecodeEncode | crypto/base64.h:55-159 | decoding undoes encoding on every byte string (section 4 of RFC 4648) |
| Base64.EncodeLength | crypto/base64.h:55-102 | four characters for every three bytes begun |
| Base64.EncodeAlphabet | crypto/base64.h:55-102 | only characters of the alphabet, and pads only at the end |
| Base64.EncodeDecode | crypto/base64.h:55-159 | a text comes back from decoding and encoding if and only if it is canonical |
| Base64.RoundTrip | crypto/base64.h:55-159 | the two loops one after the other return the bytes |
| Framing.Buffer.Write | buffer.hpp:72-81 | the bytes are appended, the capacity always suffices |
| Framing.Buffer.Read | buffer.hpp:83-91 | up to n bytes are taken off the front |
| Framing.Buffer.Remove | buffer.hpp:49-54 | up to n bytes are dropped from the front |
| Framing.Dispatch | net/socket.hpp:780-790 | the inner loop delivers the messages of the buffered bytes and leaves the rest |
| Framing.LoopRead | net/socket.hpp:773-792 | the session over any chunks; for a sound and stable handler its outcome is that of the joined bytes |
| Framing.Conn.DispatchMessages | net/tcp.hpp:286-298 | what has been delivered and what is held stay determined by the bytes received; the connection is closed exactly when the handler ends the session |
| Framing.Conn.HandleRead | net/tcp.hpp:263-284 | over any answers of recv: everything in front of the first would-block, end or error is received and its messages are delivered, unless the handler ends the session before; closed exactly by the handler, the end of the stream or an error |
| Framing.DrainMore | net/socket.hpp:773-792 | delivering what is complete and then going on with more bytes is delivering all at once |
| Framing.SessionIsDrain | net/socket.hpp:773-792 | messages, end and leftover of a session are those of the joined bytes |
| Framing.IndependentIffStable | net/socket.hpp:773-792 | the outcome is independent of the split if and only if the handler's answers stand when more bytes arrive |
| Framing.InterleavedStable | stream/rtsp.hpp:334-377 | interleaved packets (section 10.12 of RFC 2326) are such a handler if the handler for other messages is |
| Framing.PacketIs | stream/rtsp.hpp:334-377 | a packet is a dollar sign, a channel, and a payload behind its length in two bytes, the higher one first; it is taken when it is there in full |
| Framing.OtherIs | stream/rtsp.hpp:334-341 | with four bytes there, anything else is left to the other handler |

## Left out

- AesTables.SBoxInverse: the S-boxes are decision trees over the table entries; Te0 to Te3 and Td0 to Td3 are computed from them by the GF(2^8) formulas of FIPS 197 rather than listed, and the unrolled rounds are a loop.
- Md5.Hasher.Append: the compression function (crypto/md5.h:173-349) is a parameter of the model, so nothing is said about its rounds.
- BitReader.Reader.UeBits: codes with more than 16 leading zeros, on which the source shifts past its field width, are excluded.
- BitWriter.Writer.PutBits: the `or` into the cache is an addition, the operands having no bit in common; a field of 32 bits is excluded as in the source's shifts.
- AnnexB.FindStartCode: the source looks at one byte behind data that ends in two zeros; that byte is a parameter, assumed not to complete a start code.
- Transcode.EverySliceResolves: for slices whose PPS id was never received, and PPS whose SPS was never received, nothing is promised; the id maps then hold their initial zeros.
- Patcher.Patcher.TranscodeNalu: an empty unit stands for the source's return value 0; malloc failure in find_mem_cache is not modelled.
- Mp4Mux.WriteFile: when a continuation is written behind another track's bytes, nothing is said about which single samples are still right, because some may be, by coincidence; that descriptors overlap is exact.
- Mp4Mux.Mux.AddTrack: DSI and parameter sets are given with the track; those of an H.264 track are the lists that its writer has collected by the end, because only the index looks at them.
- Mp4Mux.Mux.PutSample: tracks are values in a list, not objects; status codes for null arguments are left out.
- Mp4RoundTrip.SampleRoundTrip: sample sizes, durations and the size of the index must fit 32 bits and the end of the file a signed 64-bit position, as their fields are; in non-sequential mode continuations must stay adjacent; files with a track that the demuxer cannot read are excluded, and WriteThenOpen says which these are; HEVC tracks are left out; the demuxer does not read the sync table, so `sync` is what a reader by section 8.6.2 of ISO/IEC 14496-12 makes of it.
- Mp4Fields.AudioSays: the lengths in esds are stated for configurations of at most 107 bytes, because from there on the length macro writes something else.
- Mp4Foreign.AvcFound: parameter sets of length 0 in an avcC box are excluded.
- Mp4Demux.Open: stz2 boxes are passed unread; of a table that asks for more bytes than its box has nothing is kept, and a box header that the file cuts off ends the pass; a box that needs a track where there is none ends it with an error, at the top level too, where the source goes on or follows a null pointer; so does a size of 0, which the source asserts against; what headers, sample entries and tags tell besides is not kept, and memory always suffices.
- H264Writer.H26xWriter.WriteNal: what the muxer is given is kept in the writer, to be put into a file afterwards; a unit other than a parameter set must begin with a code that ue_bits can read; the buffers of 17/16 of a unit's length are taken to suffice; a run must not overflow the transcoder's caches, and its PPS must name SPS that have come.
- H264RoundTrip.PictureRoundTrip: at most 31 SPS and 255 PPS, whose numbers have five and eight bits; in sequential mode a first picture behind leading continuations is excluded.
- Mp4Index.FrameOffset: a sample behind the table of a file with one chunk is computed from the sizes, and nothing is stated about it; 64-bit overflow of the sum is not modelled.
- Mp4Boxes.MoovFits: HEVC entries are left out, because the reserved memory does not count the VPS list.
- SigSlot.Emit: a slot does not emit the same signal again, which would reset its one cursor, and does not create or destroy signals and receivers; locking policies and slot arguments are left out.
- Channel.Fifo: which waiting thread a notify wakes is left open, a waiting thread may check its predicate at any time, so no claim is made that a particular waiter is woken; the 32-bit width of `size_` is not modelled.
- Pool.StartedInOrder: results, futures and exceptions of tasks are left out.
- Framing.LoopRead: the handler is a function of the buffered bytes; sockets, time-outs and the size of one read are left out, chunks may have any length.
- Base64.EncodeBytes: characters are bytes, shifts and masks are written as divisions and remainders.
- Fragmented mux mode.
- The H.265 writer.
- `de_emulation_prevention` of stream/sps.hpp, which is not an inverse of the escaper, and the decoding of SPS fields.
- Range-for draining of a channel after close, which checks only the flag.
- Sockets, event loops, FTP, KCP, RTMP, media encoders, files, logging, time, processes, RTP header fields, G.711 and byte-order getters: wrappers, or properties that need no proof beyond reading.
