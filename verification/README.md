# betrusted-ec cores in Dafny

A model of the sequential cores of the Betrusted embedded controller (EC):
the UP5K FPGA's firmware in Rust, its gateware in Python (Migen/LiteX), and
the build scripts that generate the boot ROM, the multiboot header and the
Wi-Fi platform data set. Each core is modelled in the form it has in the
source, and the properties its code and comments promise are proved about
the model.

- Firmware state that is updated in place is a `class` with `modifies`
  clauses. This covers the DHCP client, the two packet queues, the COM
  interrupt manager, the WF200 glue, the battery handler, the peripheral
  drivers and the IRQ table. Each such method is specified by a function of
  the old state, and the invariants it keeps are proved as lemmas.
- Pure code is datatypes, functions and lemmas: option parsing,
  checksums, verb packing, register encodings, `git describe` parsing and
  the PDS number rewriting.
- Gateware is one clock step per clock domain. A class with a `Step`
  method holds the registers, and a step function states the next state.
  Behaviour over many clocks (counting down, sticky flags, whole SPI
  transfers) is proved over runs of inputs.
- What a core reads from outside is a parameter: the clock, entropy, I2C
  replies, `com_rx` words, RDATA samples and the sensors. What it writes
  out is an ordered log in the model: I2C transactions, CSR writes and
  charger operations.

| file | source | what it models |
|---|---|---|
| wrappers.dfy, bits.dfy | — | `Option`/`Result`, fixed-width integers, byte order |
| retry_timers.dfy | sw/net/src/timers.rs | DHCP retry/back-off timer |
| net_prng.dfy | sw/net/src/prng.rs | xoshiro128++ PRNG with its discard rule |
| hostname.dfy | sw/net/src/hostname.rs | random DHCP host names |
| filter_stats.dfy | sw/net/src/filter.rs | saturating filter counters |
| net_frame.dfy | sw/net/src/lib.rs | frame layout and one's-complement checksums |
| dhcp_options.dfy | sw/net/src/dhcp.rs | the options parser and value decoders |
| dhcp.dfy | sw/net/src/dhcp.rs | the DHCP client state machine and frame builders |
| net_stack.dfy | sw/net/src/lib.rs | `NetState` and the inbound frame classifier |
| wfx_pkt_buf.dfy | sw/wfx_rs/src/pkt_buf.rs | the WF200 receive packet ring |
| ec_pkt_buf.dfy | sw/src/pkt_buf.rs | the older EC packet queue |
| com_bus.dfy | sw/src/com_bus.rs | the COM interrupt-vector manager |
| uart.dfy, str_buf.dfy, wlan.dfy | sw/src/uart.rs, str_buf.rs, wlan.rs | UART wake sequence, string buffer, credentials |
| com_verbs.dfy | sw/src/main.rs | COM verb word packing and the main-loop counters |
| spi_flash.dfy | sw/src/spi.rs | bit-banged SPI flash commands, erase planner, page program |
| power_mgmt.dfy | sw/src/power_mgmt.rs | the charger handler's decisions |
| hal_wf200.dfy | sw/wfx_rs/src/hal_wf200.rs | WF200 host glue: allocator, flags, scan log |
| i2c.dfy, bq25618.dfy, gas_gauge.dfy, backlight.dfy, imu.dfy | sw/betrusted-hal/src | I2C log and the four peripheral drivers |
| irq.dfy | sw/xous-nommu/src/irq.rs | the interrupt handler table |
| numerals.dfy, git_describe.dfy, multiboot.dfy, random_rom.dfy | betrusted_ec.py, betrusted-ec.py, xoulon-mcu.py | numerals, `git describe`, multiboot header, random ROM |
| pds_text.dfy, pds_syntax.dfy | sw/wfx-pds-compress.py | the PDS compressor, front end and back end |
| ec_soc.dfy, legacy_soc.dfy | betrusted_ec.py, betrusted-ec.py | watchdog, power pads, flash read handshake, reset counter, warm boot, version CSRs |
| ticktimer.dfy, rtl_i2c.dfy, ring_osc.dfy, rtl_spi.dfy | rtl/ | tick timer, I2C flags, TRNG collector, SPI blocks |

Some source files come from different points in the repository's history,
and each is modelled on its own terms. filter.rs has ten bins while lib.rs
counts thirteen, so `FilterStats` follows filter.rs and `NetStack.NetState`
keeps a map of the thirteen bins lib.rs uses. power_mgmt.rs, api_lm3509.rs
and api_gasgauge.rs are modelled with their own signatures, not their
callers' in main.rs.

## Model

| member | source | states |
|---|---|---|
| RetryTimers.Offset | sw/net/src/timers.rs:51-58 | the random offset is below 2048 ms, and zero for a halted timer |
| RetryTimers.NewHalted | sw/net/src/timers.rs:43-48 | a new halted timer has no expiry time and is consistent |
| RetryTimers.NewRandom | sw/net/src/timers.rs:51-66 | a stage is due at now + delay + offset, within 2048 ms of now + delay; a halted stage has no time |
| RetryTimers.NewFirstRandom | sw/net/src/timers.rs:69-71 | the first stage is R2s, due between 1000 and 3048 ms from now |
| RetryTimers.ScheduleNext | sw/net/src/timers.rs:74-85 | the next stage follows R2s→R4s→R8s→R16s→Halted, due at now + its base + its offset |
| RetryTimers.Status | sw/net/src/timers.rs:88-103 | expired exactly when now is strictly after the time, running when not, halted when halted or unscheduled |
| RetryTimers.NewHaltedStatus | sw/net/src/timers.rs:88-90 | a new halted timer reports Halted at any time |
| RetryTimers.FreshTimerRunsThenExpires | sw/net/src/timers.rs:60-103 | a freshly scheduled stage is running when scheduled and expired once base + 2048 ms have passed |
| RetryTimers.BackoffHalts | sw/net/src/timers.rs:69-85 | four reschedules from the first stage give R4s, R8s, R16s, Halted |
| RetryTimers.HaltedStaysHalted | sw/net/src/timers.rs:79-83 | rescheduling a halted timer gives a halted timer |
| NetPrng.Pack | sw/net/src/prng.rs:30-33 | a packed state word carries the first seed half-word in its high 16 bits and the second in its low 16 bits |
| NetPrng.NetPrng.NewFrom | sw/net/src/prng.rs:26-36 | the generator starts with draw count 0 and the seed packed pairwise into its four state words |
| NetPrng.NetPrng.Reseed | sw/net/src/prng.rs:39-41 | reseeding leaves the generator in exactly the state `new_from` builds, count included |
| NetPrng.StepsOfNext | sw/net/src/prng.rs:51-59 | a draw takes six steps while fewer than five draws were made, one step afterwards |
| NetPrng.Bump | sw/net/src/prng.rs:66 | the draw count increases by one and saturates at the 32-bit `usize` maximum |
| NetPrng.NetPrng.NextInner | sw/net/src/prng.rs:65-76 | returns rotl(s0 + s3, 7) + s0, both additions taken modulo 2^32 as a release build does, applies the xoshiro128++ state update and bumps the count |
| NetPrng.NetPrng.Next | sw/net/src/prng.rs:51-59 | discards five outputs and returns the sixth while the count is below 5, else steps once |
| NetPrng.BumpNGrows | sw/net/src/prng.rs:66 | repeated saturating increments never decrease the count, and add exactly n below the maximum |
| NetPrng.CallsOnceMixed | sw/net/src/prng.rs:51-59 | once five draws have been made, each call returns the output of the current state and advances once |
| NetPrng.CallsFromSeed | sw/net/src/prng.rs:26-76 | a generator built from a seed returns the outputs from the sixth step on, one per call |
| NetPrng.SameSeedSameCalls | sw/net/src/prng.rs:26-76 | generators built from equal seeds return identical sequences |
| Hostname.LeBytes | sw/net/src/hostname.rs:21-22 | the four entropy bytes are taken least significant first |
| Hostname.SymbolIndex | sw/net/src/hostname.rs:26-29 | the masked symbol index is below 32 and, for the first character, at least 11 |
| Hostname.RandomName | sw/net/src/hostname.rs:17-46 | the generated name has 8 − (entropy0 & 3) characters |
| Hostname.CharOfIsCharset | sw/net/src/hostname.rs:30-44 | the translation table maps index x to symbol x of "0123456789ABCDFGHJKLMNPQRSTVWXYZ", so the `_` arm is unreachable |
| Hostname.RandomNameShape | sw/net/src/hostname.rs:15-46 | a random name has 5 to 8 characters from the charset and never starts with a digit or 'A' |
| Hostname.Hostname.NewBlank | sw/net/src/hostname.rs:8-13 | a blank host name has length 1 and an all-zero buffer |
| Hostname.Hostname.Randomize | sw/net/src/hostname.rs:17-46 | sets the length, writes the random name into the first `length` bytes and leaves the rest of the buffer untouched |
| Hostname.Hostname.AsBytes | sw/net/src/hostname.rs:57-59 | returns the first `length` bytes of the buffer |
| Hostname.Hostname.Len | sw/net/src/hostname.rs:62-64 | the length is the length of `as_bytes` |
| FilterStats.SatInc16 | sw/net/src/filter.rs:54 | a counter increment adds one below 65535 and sticks at 65535 |
| FilterStats.AllBinsComplete | sw/net/src/filter.rs:3-14 | every filter bin has a counter |
| FilterStats.FilterStats.Snapshot | sw/net/src/filter.rs:17-28 | the snapshot maps each bin to its counter |
| FilterStats.FilterStats.NewAllZero | sw/net/src/filter.rs:31-44 | all ten counters start at zero |
| FilterStats.FilterStats.Reset | sw/net/src/filter.rs:47-49 | all ten counters are zero afterwards |
| FilterStats.FilterStats.IncCountFor | sw/net/src/filter.rs:52-65 | only the named bin's counter changes, by a saturating increment; no counter decreases |
| FilterStats.CountedOne | sw/net/src/filter.rs:52-65 | one increment is one step of the counting function |
| FilterStats.CountedIsCappedOccurrences | sw/net/src/filter.rs:52-65 | after a run of increments, each counter is its start plus its bin's occurrences, capped at 65535 |
| FilterStats.FilterStats.SetCount | sw/net/src/filter.rs:52-65 | the named bin's counter takes the new value and every other counter is kept |
| NetFrame.Words16 | sw/net/src/lib.rs:152 | each 16-bit word is the big-endian pair of bytes at its position |
| NetFrame.OnesAdd | sw/net/src/lib.rs:153-156 | the end-around-carry add is congruent to the plain sum modulo 0xFFFF |
| NetFrame.OnesSumIsSumMod | sw/net/src/lib.rs:150-157 | the folded sum of a word list is its plain total modulo 0xFFFF |
| NetFrame.SumLoop | sw/net/src/lib.rs:185-191 | the checksum loop computes the folded sum of its words |
| NetFrame.Ipv4Checksum | sw/net/src/lib.rs:146-159 | the header checksum is the complement of the folded sum of bytes 14..24 and 26..34 |
| NetFrame.Ipv4UdpChecksum | sw/net/src/lib.rs:163-193 | the UDP checksum is the complement of the folded sum of the pseudo-header, the datagram without its checksum field and a zero-padded odd byte |
| NetFrame.WithBe16At | sw/net/src/dhcp.rs:526-529 | writing a big-endian field changes exactly its two bytes |
| NetFrame.Ipv4ChecksumSkipsField | sw/net/src/lib.rs:147-148 | the header checksum never reads bytes 24..25 |
| NetFrame.UdpChecksumSkipsFields | sw/net/src/lib.rs:167-171 | the UDP checksum reads neither the IP checksum field nor its own field |
| NetFrame.ChecksumFixupsVerify | sw/net/src/lib.rs:146-193 | writing the IP checksum and then the UDP checksum into a frame makes both read back as the checksums of the result |
| DhcpOptions.ParseFirstBeU32 | sw/net/src/dhcp.rs:831-838 | succeeds exactly on a non-empty multiple of 4 bytes, with the big-endian value of the first four; otherwise the given error code |
| DhcpOptions.ParseMsgType | sw/net/src/dhcp.rs:849-858 | succeeds exactly on one byte in 1..=8, which it records; otherwise the given error code |
| DhcpOptions.ApplyOption | sw/net/src/dhcp.rs:784-794 | tags other than the six kept ones leave the options unchanged; errors are 0x11..0x16 |
| DhcpOptions.ParseOptions | sw/net/src/dhcp.rs:748-805 | the parsing loop returns what the options grammar gives: stop at 255, skip 0, Err 0x01 for a missing length, Err 0x02 for overrun data |
| DhcpOptions.TrailingPadPanics | sw/net/src/dhcp.rs:757-766 | a block ending in a pad byte without an end option makes the loop read past the end; the guarded parser accepts it |
| DhcpOptions.AsWrittenAgreesUnlessPanic | sw/net/src/dhcp.rs:748-805 | wherever the loop as written does not read out of bounds, it returns the same result as the guarded parser |
| DhcpOptions.ScanSuffix | sw/net/src/dhcp.rs:756-803 | parsing from index i is parsing the suffix from i |
| DhcpOptions.PadIgnored | sw/net/src/dhcp.rs:763-766 | a pad byte is skipped without reading a length |
| DhcpOptions.EndStopsParse | sw/net/src/dhcp.rs:761 | the end option stops the parse; whatever follows it is ignored |
| DhcpOptions.ScanTlv | sw/net/src/dhcp.rs:770-795 | a tag-length-value record is applied and the parse continues after its data |
| DhcpOptions.U32OptionRoundTrip | sw/net/src/dhcp.rs:786-791 | a single 4-byte server id, lease time, subnet, gateway or DNS option parses back to its value in its field |
| DhcpOptions.ScanEncoded | sw/net/src/dhcp.rs:756-803 | parsing an encoded option list applies its options in order |
| DhcpOptions.ScanFirst | sw/net/src/dhcp.rs:756-803 | parsing an encoded list applies its first option, stops on that option's error, and otherwise goes on with the remaining options |
| DhcpOptions.ParseEncoded | sw/net/src/dhcp.rs:748-805 | an encoded option list followed by the end option and any padding parses to the options applied in order |
| DhcpOptions.ScanAgreesUnlessPanic | sw/net/src/dhcp.rs:748-805 | from any position with enough iterations left, a scan as written that does not read out of bounds gives the guarded scan's result |
| Dhcp.StartS | sw/net/src/dhcp.rs:357-368 | a countdown started for s seconds is already done exactly when s is zero |
| Dhcp.DhcpClient.New | sw/net/src/dhcp.rs:87-108 | a new client is halted, with no bindings, no timers and no event |
| Dhcp.DhcpClient.PopAndAckChangeEvent | sw/net/src/dhcp.rs:115-124 | returns the latched state-change event and clears the latch |
| Dhcp.DhcpClient.ResetBindings | sw/net/src/dhcp.rs:139-150 | forgets the address, server id, gateway, subnet, DNS and lease and clears all three lease timers, keeping the gateway MAC and transaction id |
| Dhcp.DhcpClient.ClearTimers | sw/net/src/dhcp.rs:145-147 | clears the T1, T2 and lease countdowns and nothing else |
| Dhcp.DhcpClient.HaltAndReset | sw/net/src/dhcp.rs:152-159 | resets the bindings and the stopwatch, halts and latches the halted event |
| Dhcp.DhcpClient.HandleLinkDrop | sw/net/src/dhcp.rs:161-164 | a dropped link halts and resets the client |
| Dhcp.DhcpClient.BeginAtInit | sw/net/src/dhcp.rs:167-198 | keeps two entropy words for the retry offsets, takes the transaction id from the fifth, halts the retry timer, clears the bindings and moves to INIT |
| Dhcp.DhcpClient.CycleClock | sw/net/src/dhcp.rs:200-299 | the state and packet request after one clock tick, as the state diagram's timer edges give them |
| Dhcp.DhcpClient.HandleOffer | sw/net/src/dhcp.rs:301-333 | an offer records the offered bindings only while selecting |
| Dhcp.DhcpClient.HandleAck | sw/net/src/dhcp.rs:349-374 | an ack while requesting, renewing or rebinding binds and arms T1, T2 and the lease timer |
| Dhcp.DhcpClient.StartTimers | sw/net/src/dhcp.rs:357-368 | T1 at half the lease, T2 at seven eighths, the lease timer at fifteen sixteenths |
| Dhcp.DhcpClient.HandleNak | sw/net/src/dhcp.rs:378-398 | a nak while requesting restarts at INIT; while renewing or rebinding it halts |
| Dhcp.DhcpClient.HandleFrame | sw/net/src/dhcp.rs:660-746 | a frame is checked (length, BOOTREPLY header, transaction id, cookie) and its offer, ack or nak dispatched; anything else is dropped |
| Dhcp.DhcpClient.BuildDhcpHeaders | sw/net/src/dhcp.rs:401-468 | writes the Ethernet, IPv4, UDP and BOOTP headers, or returns 0x03..0x07 leaving the buffer untouched |
| Dhcp.DhcpClient.FinishFrame | sw/net/src/dhcp.rs:520-537 | writes the option bytes after the headers and fixes up both checksums |
| Dhcp.DhcpClient.WriteFrame | sw/net/src/dhcp.rs:401-537 | the buffer then holds the whole frame, or is unchanged on error |
| Dhcp.DhcpClient.BuildDiscoverFrame | sw/net/src/dhcp.rs:470-538 | the buffer holds the broadcast DHCPDISCOVER, or 0x08 for a short buffer, or the header errors |
| Dhcp.DhcpClient.BuildRequestFrame | sw/net/src/dhcp.rs:540-638 | the buffer holds the DHCPREQUEST, or 0x09 for a short buffer, 0x0A without bindings, or the header errors |
| Dhcp.HeaderFieldsOf | sw/net/src/dhcp.rs:414-445 | fails exactly without a transaction id (0x04) or when the stopwatch errs (0x05, 0x06, 0x07) |
| Dhcp.ChecksumsTouchOnlyTheirFields | sw/net/src/dhcp.rs:524-537 | the checksum fixup changes only bytes 24-25 and 40-41 |
| Dhcp.DiscoverFrameOf | sw/net/src/dhcp.rs:470-538 | errors exactly on a short buffer (0x08) or a header error |
| Dhcp.RequestFrameOf | sw/net/src/dhcp.rs:540-638 | errors exactly on a short buffer (0x09), missing bindings (0x0A) or a header error |
| Dhcp.CycleClockFollowsDiagram | sw/net/src/dhcp.rs:200-299 | every clock tick keeps the state or follows an edge of the state diagram, and the packet it asks for fits the new state |
| Dhcp.CycleClockHaltedAndInit | sw/net/src/dhcp.rs:205-212 | halted stays halted and asks for nothing; INIT moves to SELECTING, asks for a discover and starts the retry timer |
| Dhcp.BoundRenewsAtT1 | sw/net/src/dhcp.rs:247-257 | a bound client asks to renew exactly when T1 is done, clearing T1; otherwise nothing changes |
| Dhcp.LeaseExpiryHalts | sw/net/src/dhcp.rs:277-285 | a rebinding client whose lease timer is done halts, latches the event and forgets its lease |
| Dhcp.HaltingIsLatched | sw/net/src/dhcp.rs:200-299 | every clock or nak transition into HALTED latches the halted event |
| Dhcp.OnlyAckBinds | sw/net/src/dhcp.rs:349-374 | only an ack can bind, and it binds exactly from requesting, renewing or rebinding |
| Dhcp.PopEventOnce | sw/net/src/dhcp.rs:115-124 | an event is reported once; the second pop returns none |
| Dhcp.OfferOnlyInSelecting | sw/net/src/dhcp.rs:301-333 | an offer outside SELECTING changes nothing; inside it records every offered binding |
| Dhcp.AckArmsOrderedTimers | sw/net/src/dhcp.rs:349-374 | after an ack T1 is due no later than T2, T2 no later than the lease timer, all within the lease |
| Dhcp.NakOutcomes | sw/net/src/dhcp.rs:378-398 | a nak's effect in each state, keeping the gateway MAC and transaction id |
| Dhcp.LinkDropHalts | sw/net/src/dhcp.rs:139-164 | a link drop halts, latches the event and forgets every binding except the gateway MAC |
| Dhcp.NewClientConsistent | sw/net/src/dhcp.rs:87-108 | a new client satisfies the client invariant (bound states hold their bindings) |
| Dhcp.ClockKeepsConsistent | sw/net/src/dhcp.rs:200-299 | a clock tick keeps the client invariant |
| Dhcp.RepliesKeepConsistent | sw/net/src/dhcp.rs:301-398 | offers, acks and naks keep the client invariant |
| Dhcp.ResetsKeepConsistent | sw/net/src/dhcp.rs:115-198 | resets, the start at INIT and popping the event keep the client invariant |
| Dhcp.HandleFrameKeepsConsistent | sw/net/src/dhcp.rs:660-746 | handling a frame keeps the client invariant |
| Dhcp.RequestStatesHaveBindings | sw/net/src/dhcp.rs:558-573 | in the requesting, renewing and rebinding states the missing-binding error 0x0A cannot occur |
| Dhcp.HandleFrameDrops | sw/net/src/dhcp.rs:660-690 | short frames, unexpected states, non-reply headers, foreign transaction ids and a wrong cookie are dropped without a change |
| Dhcp.HandleFrameOutcome | sw/net/src/dhcp.rs:660-746 | a frame is either counted as DHCP or dropped without changing the client |
| Dhcp.HeadersLayout | sw/net/src/dhcp.rs:401-468 | where the headers carry the MACs, the ethertype, the IPv4 addresses, the UDP ports, the transaction id and ciaddr |
| Dhcp.FrameLayout | sw/net/src/dhcp.rs:401-537 | the frame is the headers with only the checksum bytes rewritten, followed by the options |
| Dhcp.FrameFields | sw/net/src/dhcp.rs:401-537 | the frame's addresses, transaction id and options read back, and both checksums verify |
| Dhcp.FrameChecksumsVerify | sw/net/src/dhcp.rs:524-537 | the stored IPv4 and UDP checksums equal the checksums computed over the frame |
| Dhcp.FrameOfHeaderBytes | sw/net/src/dhcp.rs:401-537 | a built frame has the IPv4 version and UDP port bytes and verifying checksums |
| Dhcp.HeaderBytes | sw/net/src/dhcp.rs:401-537 | the EtherType, IPv4 version and protocol, fragment and UDP destination-port bytes of every built frame have their fixed values |
| Dhcp.DiscoverFrameHeaders | sw/net/src/dhcp.rs:470-538 | the DHCPDISCOVER goes from 0.0.0.0 to the broadcast MAC and address with the client's transaction id |
| Dhcp.RenewFrameHeaders | sw/net/src/dhcp.rs:558-566 | a renewing request is unicast to the gateway MAC and the server, from and with ciaddr set to the bound address |
| Dhcp.RebindFrameHeaders | sw/net/src/dhcp.rs:567-570 | a rebinding request is broadcast with ciaddr set to the bound address |
| Dhcp.SelectingRequestHeaders | sw/net/src/dhcp.rs:571-573 | a selecting request is broadcast from 0.0.0.0 with ciaddr zero |
| Dhcp.DiscoverOptListEncoded | sw/net/src/dhcp.rs:483-512 | the DHCPDISCOVER options are message type 1, the parameter list, the maximum size, the client id, the lease time and the hostname |
| Dhcp.DiscoverOptionsParse | sw/net/src/dhcp.rs:483-523 | parsed by parse_options (dhcp.rs:748-805), the discover's option bytes start with the cookie and parse back to a DHCPDISCOVER with its requested lease time |
| Dhcp.DiscoverFrameOptions | sw/net/src/dhcp.rs:470-538 | the options of a built DHCPDISCOVER frame parse back to those values |
| Dhcp.RequestHeadEncoded | sw/net/src/dhcp.rs:578-583 | the fixed head of the DHCPREQUEST options |
| Dhcp.RequestOptListEncoded | sw/net/src/dhcp.rs:578-623 | a request carries the requested address and server id only when selecting |
| Dhcp.RequestOptionsParse | sw/net/src/dhcp.rs:578-623 | parsed by parse_options (dhcp.rs:748-805), the request's option bytes parse back to message type 3, with the server id only when selecting |
| Dhcp.RequestFrameOptions | sw/net/src/dhcp.rs:540-638 | the options of a built DHCPREQUEST frame parse back to those values |
| Dhcp.DhcpClient.CycleSelecting | sw/net/src/dhcp.rs:212-235 | a tick in SELECTING moves to REQUESTING and asks for a request once an offer is held, otherwise follows the retry timer, exactly as the clock function says |
| Dhcp.DhcpClient.CycleRequesting | sw/net/src/dhcp.rs:236-246 | a tick in REQUESTING halts when the retries are spent, re-sends the request when the retry timer fires and otherwise waits, exactly as the clock function says |
| Dhcp.DhcpClient.CycleRenewing | sw/net/src/dhcp.rs:259-276 | a tick in RENEWING moves to REBINDING when T2 expires and otherwise follows the renewal retry timer, exactly as the clock function says |
| Dhcp.DhcpClient.CycleRebinding | sw/net/src/dhcp.rs:277-296 | a tick in REBINDING drops the bindings and halts when the lease expires and otherwise follows the rebinding retry timer, exactly as the clock function says |
| Dhcp.DhcpClient.StoreBe16 | sw/net/src/dhcp.rs:526-533 | a checksum is stored big-endian at its offset and every other byte of the frame and of the buffer is kept |
| NetStack.ZeroStats | sw/net/src/lib.rs:58 | every one of the thirteen counters starts at zero |
| NetStack.Inc | sw/net/src/lib.rs:113-136 | the counter of the bin goes up by one, saturating at 65535, and no other counter changes |
| NetStack.NetState.New | sw/net/src/lib.rs:55-63 | a zero MAC, zero counters, the generator seeded with eight 0x55 words, a new DHCP client and the COM bridge enabled |
| NetStack.NetState.SetMac | sw/net/src/lib.rs:66-68 | the MAC holds the six given bytes |
| NetStack.NetState.SetComNetBridgeEnable | sw/net/src/lib.rs:92-94 | changes the bridge flag and nothing else |
| NetStack.NetState.HandleFrame | sw/net/src/lib.rs:113-136 | the frame's bin and the DHCP client's new state are the classifier's, and exactly that bin's counter is incremented |
| NetStack.NetState.HandleIpv4Frame | sw/net/src/lib.rs:195-230 | the IPv4 classification: short or optioned headers, fragments, bad checksums and protocols |
| NetStack.NetState.HandleUdpFrame | sw/net/src/lib.rs:240-259 | non-DHCP datagrams are forwarded, DHCP datagrams with a bad checksum dropped, the rest handed to the DHCP client |
| NetStack.ShortAndMulticastDrops | sw/net/src/lib.rs:114-133 | short frames are noise, mDNS multicast is dropped, and other ethertypes than IPv4 and ARP are dropped |
| NetStack.Ipv4Drops | sw/net/src/lib.rs:196-220 | IPv4 frames with options, fragments or a wrong header checksum are dropped in their bins |
| NetStack.ProtocolDispatch | sw/net/src/lib.rs:221-229 | a sound IPv4 header dispatches UDP to the UDP handler, forwards ICMP and TCP and drops other protocols |
| NetStack.ClientChangesOnlyThroughDhcp | sw/net/src/lib.rs:113-259 | only a frame counted as DHCP can change the DHCP client, and such a frame passed every header and checksum test |
| NetStack.UnusedBins | sw/net/src/lib.rs:113-297 | the classifier never returns the Icmp or Udp bins |
| NetStack.ArpOutcomes | sw/net/src/lib.rs:262-297 | a request for our bound address is answered as ARP, replies are forwarded, anything else is noise |
| NetStack.OwnFramesForwarded | sw/net/src/lib.rs:113-259 | a frame the DHCP builders (dhcp.rs:401-537) produce passes the IPv4 checks and, addressed to the server port, is forwarded |
| WfxPktBuf.FirstFree | sw/wfx_rs/src/pkt_buf.rs:55-56 | the first empty slot at or after `from`, every slot before it being taken; none when all are taken |
| WfxPktBuf.PktBuf.Empty | sw/wfx_rs/src/pkt_buf.rs:21-29 | the static queue starts with no packets, not polled and not initialised |
| WfxPktBuf.PktBuf.Init | sw/wfx_rs/src/pkt_buf.rs:31-40 | the first call zeroes the byte region and sets the flag; later calls change nothing |
| WfxPktBuf.PktBuf.GetEnqueueSlice | sw/wfx_rs/src/pkt_buf.rs:43-114 | the new queue state and the region handed out are those of the (corrected) enqueue, and the queue invariant is kept |
| WfxPktBuf.PktBuf.Store | sw/wfx_rs/src/pkt_buf.rs:55-111 | fills the first free slot with the placed packet and links it at the tail, or refuses |
| WfxPktBuf.PktBuf.Link | sw/wfx_rs/src/pkt_buf.rs:71-101 | the filled slot becomes the new tail of the queue; the first packet also becomes the dequeue end |
| WfxPktBuf.PktBuf.LinkTail | sw/wfx_rs/src/pkt_buf.rs:81-95 | the walk from the dequeue end reaches the last queued slot and links the new one after it, changing no other slot |
| WfxPktBuf.PktBuf.PeekDequeueSlice | sw/wfx_rs/src/pkt_buf.rs:121-142 | returns the oldest packet's region without changing anything |
| WfxPktBuf.PktBuf.Dequeue | sw/wfx_rs/src/pkt_buf.rs:145-174 | frees the oldest packet's slot and advances the dequeue end, emptying both ends after the last packet; false on an empty queue |
| WfxPktBuf.PktBuf.Release | sw/wfx_rs/src/pkt_buf.rs:165 | freeing the old dequeue slot completes the state the dequeue operation specifies, and the queue loses its head while the ring layout holds |
| WfxPktBuf.PktBuf.PollNewAvail | sw/wfx_rs/src/pkt_buf.rs:179-196 | reports the oldest packet's length once, then nothing until the next enqueue or dequeue |
| WfxPktBuf.QueueIsSafe | sw/wfx_rs/src/pkt_buf.rs:46-51 | under the queue invariant the `expect`s of enqueue and dequeue cannot fail |
| WfxPktBuf.UnlinkedIsLast | sw/wfx_rs/src/pkt_buf.rs:84-95 | in a well-formed queue only the last slot has no link, so the walk stops at the tail |
| WfxPktBuf.EnqueueIgnoresPoll | sw/wfx_rs/src/pkt_buf.rs:44 | the enqueue result does not depend on the polled flag, which it clears |
| WfxPktBuf.EmptyIsRing | sw/wfx_rs/src/pkt_buf.rs:21-29 | the empty queue satisfies the ring invariant |
| WfxPktBuf.EnqueueShape | sw/wfx_rs/src/pkt_buf.rs:55-113 | without a free slot or a place nothing but the polled flag changes; otherwise the new packet is appended and its region returned |
| WfxPktBuf.AppendedKeepsQueue | sw/wfx_rs/src/pkt_buf.rs:64-101 | appending a packet in a free slot yields a well-formed queue one longer |
| WfxPktBuf.EnqueueKeepsQueue | sw/wfx_rs/src/pkt_buf.rs:43-114 | an enqueue keeps the queue well-formed, so the failure branch of lines 72-75 is never taken |
| WfxPktBuf.RingClimb | sw/wfx_rs/src/pkt_buf.rs:14-19 | on the same side of the wrap point, older packets lie below newer ones |
| WfxPktBuf.RingDisjoint | sw/wfx_rs/src/pkt_buf.rs:14-19 | in a queue laid out as a ring no two queued packets overlap |
| WfxPktBuf.RingWrapped | sw/wfx_rs/src/pkt_buf.rs:45-54 | the newest packet ends below the oldest one's start exactly when the queue has wrapped |
| WfxPktBuf.PlaceInside | sw/wfx_rs/src/pkt_buf.rs:57-63 | a placed packet ends inside the byte region |
| WfxPktBuf.EnqueueKeepsRing | sw/wfx_rs/src/pkt_buf.rs:43-114 | the corrected enqueue keeps the ring layout |
| WfxPktBuf.AppendedKeepsRing | sw/wfx_rs/src/pkt_buf.rs:57-77 | a packet stored in the first free slot at the corrected placement is what enqueue produces, and it keeps the ring layout |
| WfxPktBuf.DequeueShape | sw/wfx_rs/src/pkt_buf.rs:149-163 | on a well-formed queue the dequeue index is set exactly when packets are queued, it names the oldest, occupied slot, and an unlinked oldest slot is also the enqueue end, so the `expect` cannot fail |
| WfxPktBuf.DroppedOldest | sw/wfx_rs/src/pkt_buf.rs:155-167 | freeing the oldest slot and moving the dequeue end to its successor (or clearing both ends) leaves a well-formed queue of the remaining packets |
| WfxPktBuf.DequeueKeepsQueue | sw/wfx_rs/src/pkt_buf.rs:145-174 | a dequeue succeeds exactly on a non-empty queue and leaves its tail well-formed |
| WfxPktBuf.DequeueKeepsRing | sw/wfx_rs/src/pkt_buf.rs:145-174 | a dequeue keeps the ring layout |
| WfxPktBuf.EnqueueDisjoint | sw/wfx_rs/src/pkt_buf.rs:57-63 | the region handed out by the corrected enqueue overlaps no queued packet |
| WfxPktBuf.FullRefuses | sw/wfx_rs/src/pkt_buf.rs:112-113 | with 32 packets queued every enqueue is refused |
| WfxPktBuf.PigeonholeQueued | sw/wfx_rs/src/pkt_buf.rs:20-22 | 32 distinct queued slot numbers below 32 take every slot |
| WfxPktBuf.PeekIsOldest | sw/wfx_rs/src/pkt_buf.rs:121-142 | peek returns nothing exactly on an empty queue and otherwise the oldest packet's region |
| WfxPktBuf.PollOnce | sw/wfx_rs/src/pkt_buf.rs:179-196 | a poll reports the oldest packet's length only if not yet polled, and a second poll reports nothing |
| WfxPktBuf.PollRearmed | sw/wfx_rs/src/pkt_buf.rs:44-146 | enqueue and dequeue re-arm the poll |
| WfxPktBuf.WrappedReachable | sw/wfx_rs/src/pkt_buf.rs:43-174 | the wrapped example queue (oldest packet at 0x3000..0x5F00, then 0..0x200, newest at 0x200..0x1200) satisfies the ring invariant and is what four enqueues and one dequeue from an empty queue produce, under either placement |
| WfxPktBuf.WrappedEnqueueOverlaps | sw/wfx_rs/src/pkt_buf.rs:57-63 | the placement as written hands out a region over the oldest queued packet; the corrected placement refuses |
| EcPktBuf.FirstFree | sw/src/pkt_buf.rs:64-65 | the first empty slot at or after `from`, every slot before it being taken; none when all are taken |
| EcPktBuf.PktBuf.New | sw/src/pkt_buf.rs:33-50 | an empty queue over a zeroed byte region |
| EcPktBuf.PktBuf.GetEnqueueSlice | sw/src/pkt_buf.rs:53-103 | the new state and region are those of the enqueue as written, link write to a copy included |
| EcPktBuf.PktBuf.PeekDequeueSlice | sw/src/pkt_buf.rs:110-130 | returns the region the dequeue index names without changing anything |
| EcPktBuf.PktBuf.Dequeue | sw/src/pkt_buf.rs:133-158 | follows the dequeue slot's link or empties both indices, never freeing the slot |
| EcPktBuf.InvIsSafe | sw/src/pkt_buf.rs:54-63 | under the invariant none of the `expect`s can fail |
| EcPktBuf.EmptyIsInv | sw/src/pkt_buf.rs:33-50 | the new queue satisfies the invariant and holds no slots |
| EcPktBuf.EnqueueKeepsInv | sw/src/pkt_buf.rs:53-103 | an enqueue keeps the invariant and hands out a region inside the byte region |
| EcPktBuf.DequeueKeepsInv | sw/src/pkt_buf.rs:133-158 | a dequeue keeps the invariant |
| EcPktBuf.FullRefuses | sw/src/pkt_buf.rs:101-102 | once all 20 slots are taken every enqueue is refused and changes nothing |
| EcPktBuf.FirstEnqueueNamesBoth | sw/src/pkt_buf.rs:86-91 | the first packet of a run becomes both the enqueue and the dequeue index |
| EcPktBuf.LaterEnqueueKeepsIndices | sw/src/pkt_buf.rs:80-88 | later packets leave both indices on the first packet of the run, so the next one is placed after that packet again |
| EcPktBuf.DequeueEmpties | sw/src/pkt_buf.rs:133-150 | a dequeue succeeds exactly when the queue is non-empty and then empties it |
| EcPktBuf.EmptyDequeue | sw/src/pkt_buf.rs:111-156 | on an empty queue dequeue fails and peek returns nothing |
| EcPktBuf.SlotsLeak | sw/src/pkt_buf.rs:133-158 | a dequeue frees no slot and each granted enqueue takes one more |
| EcPktBuf.PeekIsOldest | sw/src/pkt_buf.rs:110-130 | peek returns a region exactly when the dequeue index is set, ending where that slot ends |
| ComBus.ComInterrupts.New | sw/src/com_bus.rs:47-54 | no event pending, a zero length, nothing unmasked and no retrigger |
| ComBus.ComInterrupts.UpdateIrqPin | sw/src/com_bus.rs:56-70 | drives the host line from the unmasked pending events, dropping it for one round on a retrigger |
| ComBus.ComInterrupts.SetRxReady | sw/src/com_bus.rs:72-84 | records the length unless a connect result is pending, and raises rx-ready or asks for a retrigger |
| ComBus.ComInterrupts.AckRxReady | sw/src/com_bus.rs:85-91 | clears rx-ready and the length unless a connect result is pending |
| ComBus.ComInterrupts.SetDisconnect | sw/src/com_bus.rs:92-99 | raises the disconnect event, or asks for a retrigger when it is already pending |
| ComBus.ComInterrupts.SetConnectResult | sw/src/com_bus.rs:103-110 | raises the connect event (or retriggers) and stores the result code |
| ComBus.ComInterrupts.Raise | sw/src/com_bus.rs:92-108 | the set that retriggers when the bit is already pending |
| ComBus.ComInterrupts.Set | sw/src/com_bus.rs:114-146 | the plain `set_` methods add their bit |
| ComBus.ComInterrupts.Ack | sw/src/com_bus.rs:158-160 | clears the acknowledged bits |
| ComBus.ComInterrupts.SetMask | sw/src/com_bus.rs:153-156 | replaces the mask and asks for a retrigger |
| ComBus.ComInterrupts.GetMask | sw/src/com_bus.rs:152 | returns the mask |
| ComBus.ComInterrupts.GetState | sw/src/com_bus.rs:157 | returns the unmasked pending events and the length |
| ComBus.PinRule | sw/src/com_bus.rs:56-70 | the line is raised exactly when an unmasked event is pending and no retrigger is asked for; the retrigger is consumed and nothing else changes |
| ComBus.RetriggerMakesEdge | sw/src/com_bus.rs:59-65 | with an unmasked event pending, a retrigger drops the line and the next update raises it: the host sees a new edge |
| ComBus.RaiseSetsBit | sw/src/com_bus.rs:92-108 | a raise sets the bit and retriggers exactly when the bit was already pending |
| ComBus.SetRxReadyRule | sw/src/com_bus.rs:72-84 | the length is kept while a connect result is pending; rx-ready is set and retriggers when already pending |
| ComBus.AckRxReadyRule | sw/src/com_bus.rs:85-91 | rx-ready is cleared and the length zeroed unless a connect result is pending |
| ComBus.SetConnectResultRule | sw/src/com_bus.rs:103-110 | the result replaces the length, the connect event is pending, and it retriggers when already pending |
| ComBus.AckClearsExactly | sw/src/com_bus.rs:158-160 | an ack clears exactly its bits and leaves the rest of the state |
| ComBus.SetThenAck | sw/src/com_bus.rs:114-148 | acknowledging a bit just set leaves the same state as acknowledging it alone |
| ComBus.MaskRule | sw/src/com_bus.rs:153-157 | after a new mask only its events are reported, the length is unchanged, and a retrigger is pending |
| Uart.DrainRxBuf | sw/src/uart.rs:21-32 | drops the whole receive FIFO when it holds at most 32 bytes, else exactly its first 32 |
| Uart.BypassOffAbsorbs | sw/src/uart.rs:50 | once the bypass is off it stays off and every byte is delivered |
| Uart.DeliveredIffOff | sw/src/uart.rs:35-62 | a byte is delivered exactly when one is pending and the new state is bypass-off; without a pending byte nothing changes |
| Uart.Transitions | sw/src/uart.rs:49-57 | each state of the wake machine is entered exactly on the byte and predecessor the sequence 'A', 'T', CR or LF prescribes, tolerating "AAT" |
| Uart.FirstDeliveryFollowsWake | sw/src/uart.rs:45-62 | the first time the bypass turns off, the three bytes before were 'A', 'T' and CR or LF |
| Uart.MainPollRules | sw/src/main.rs:324-355 | the pass that consumes the CR or LF ending the wake sequence turns the bypass off without delivering it, an idle poll while waking does the same, an escape byte turns the bypass back on, the main loop delivers exactly what `rx_byte` delivers, and no pass leaves the UART waking |
| Uart.MainLoopWakes | sw/src/main.rs:324-355 | through the main loop, "AT" followed by CR or LF from a fresh start delivers nothing and leaves the bypass off after the third byte, and the next byte is delivered |
| StrBuffer.StrBuf.New | sw/src/str_buf.rs:12-17 | an empty string over a zeroed buffer of N bytes |
| StrBuffer.StrBuf.Len | sw/src/str_buf.rs:21-23 | the length of the buffered string, at most N |
| StrBuffer.StrBuf.Bytes | sw/src/str_buf.rs:26-28 | the buffered string itself |
| StrBuffer.StrBuf.WriteStr | sw/src/str_buf.rs:37-48 | succeeds exactly when the string fits, then appends it; on failure the buffer is unchanged; bytes past the new length are never touched |
| StrBuffer.StrBuf.CopyAt | sw/src/str_buf.rs:43-45 | the copy loop places the string at the current length and leaves every other byte of the buffer as it was |
| Wlan.ErrorCode | sw/src/wlan.rs:14-19 | the four error codes are 1 to 4 |
| Wlan.Utf8Len | sw/src/wlan.rs:45 | the length of the UTF-8 sequence a lead byte starts, never past the input, 0 for a malformed one |
| Wlan.WlanState.New | sw/src/wlan.rs:29-36 | zero lengths and zeroed SSID and password buffers |
| Wlan.WlanState.Ssid | sw/src/wlan.rs:39-49 | StrLen for a length past 32 bytes, otherwise the stored bytes exactly when they are valid UTF-8, else Utf8 |
| Wlan.WlanState.Pass | sw/src/wlan.rs:52-62 | StrLen for a length past 64 bytes, otherwise the stored bytes exactly when they are valid UTF-8, else Utf8 |
| Wlan.WlanState.SetSsid | sw/src/wlan.rs:66-85 | the first word received is the length and the next words fill the buffer little-endian; fewer than 17 words is a timeout, otherwise the result of `ssid` |
| Wlan.WlanState.SetPass | sw/src/wlan.rs:88-107 | the same for the password with 33 words |
| Wlan.Receive | sw/src/wlan.rs:70-83 | the loop stores the length word and the little-endian bytes of every word that arrived, and succeeds exactly when all words arrived |
| Wlan.AssertNeverFails | sw/src/wlan.rs:67-69 | the buffer-size checks hold, so the Assert error cannot occur |
| Wlan.StoredWord | sw/src/wlan.rs:75-78 | word i lands in bytes 2(i-1) and 2(i-1)+1, low byte first |
| Wlan.AsciiIsUtf8 | sw/src/wlan.rs:45 | ASCII text is accepted as UTF-8 |
| Wlan.RejectsStrayBytes | sw/src/wlan.rs:45 | a lone continuation byte or a byte that never begins UTF-8 is rejected |
| Wlan.Utf8Append | sw/src/wlan.rs:45 | the concatenation of two valid UTF-8 strings is valid |
| Wlan.Utf8LenPrefix | sw/src/wlan.rs:45 | the length of the first sequence depends only on its own bytes |
| ComVerbs.BacklightLevels | sw/src/main.rs:559-564 | the two backlight levels a BL verb carries are each at most 31 |
| ComVerbs.BacklightRoundTrip | sw/src/main.rs:559-564 | every pair of levels below 32 has a verb inside the BL range, and that verb decodes back to the same pair |
| ComVerbs.BacklightVerbsOnto | sw/src/main.rs:559-564 | every verb of the BL range is the verb of the levels it decodes to, so the decoding is a bijection |
| ComVerbs.SaneCapacity | sw/src/main.rs:458-463 | the capacity given to the gas gauge is always strictly between 600 and 1900 mAh; a sane value passes unchanged and an insane one becomes the 1100 mAh default |
| ComVerbs.FactoryCapacity | sw/src/main.rs:447-468 | GG_FACTORY_CAPACITY writes a capacity exactly when the argument word arrived, and what it writes is sane |
| ComVerbs.SaneCapacityIdempotent | sw/src/main.rs:458-463 | applying the capacity check twice is the same as applying it once |
| ComVerbs.Word32 | sw/src/main.rs:579-586 | a 32-bit argument assembled from two words has the first word as its upper half and the second as its lower half |
| ComVerbs.Words32 | sw/src/main.rs:579-586 | every 32-bit value has two words that assemble back to it |
| ComVerbs.Arg32 | sw/src/main.rs:579-595 | a 32-bit argument is available exactly when neither of its words timed out |
| ComVerbs.FlashEraseArgs | sw/src/main.rs:574-599 | FLASH_ERASE yields an address and a length exactly when all four argument words arrived |
| ComVerbs.Received | sw/src/main.rs:579-595 | words received without a timeout are delivered one for one |
| ComVerbs.FlashEraseRoundTrip | sw/src/main.rs:578-595 | the address and length the SoC sends are exactly the ones the EC erases |
| ComVerbs.PageOf | sw/src/main.rs:613-622 | a received page has two bytes per word |
| ComVerbs.PageWords | sw/src/main.rs:613-622 | an even-length page is sent as half as many words |
| ComVerbs.ReceivePage | sw/src/main.rs:613-622 | the page loop reads all 128 words even after a timeout, unpacks them little-endian, and reports success exactly when every word arrived |
| ComVerbs.PageRoundTrip | sw/src/main.rs:613-622 | a page sent as words and received without timeouts is the same page |
| ComVerbs.FlashProgramArgs | sw/src/main.rs:600-626 | FLASH_PP programs a page exactly when all 130 words arrived, at the address of the first two words, with the bytes of the other 128 |
| ComVerbs.PdsLineArgs | sw/src/main.rs:642-673 | WFX_PDS_LINE_SET passes a line on exactly when all 129 words arrived and the announced length is below 256, with the received bytes and that length |
| ComVerbs.NumWords | sw/src/main.rs:826-839 | the word count for n bytes is the least count whose bytes hold n |
| ComVerbs.OneByteFetchPanics | sw/src/main.rs:847 | as written, fetching a one-byte frame underflows the length guard and panics |
| ComVerbs.FetchAsWrittenFromTwoBytes | sw/src/main.rs:844-861 | from two bytes on the code as written sends exactly the corrected words, and its 0xDEAD filler is never reached |
| ComVerbs.FetchWordsOf | sw/src/main.rs:844-861 | the EC sends one word per two frame bytes, rounded up |
| ComVerbs.FetchFrame | sw/src/main.rs:824-862 | NET_FRAME_FETCH sends the pending frame's own words, big-endian with a zero pad byte, whatever length the verb announced |
| ComVerbs.SendOf | sw/src/main.rs:863-908 | a frame passed on by NET_FRAME_SEND has exactly the announced length, which fits the MTU |
| ComVerbs.ReceiveFrame | sw/src/main.rs:870-897 | the receive loop drains every announced word, unpacks them big-endian, and yields a frame exactly as the receive specification says, failing on a timeout or on a word past the MTU |
| ComVerbs.FetchSendRoundTrip | sw/src/main.rs:824-897 | a frame of at most the MTU fetched as words and sent back through NET_FRAME_SEND is the same frame, for odd and even lengths |
| ComVerbs.UptimeWords | sw/src/main.rs:704-710 | UPTIME sends four words, least significant first, that add back up to the tick count |
| ComVerbs.UptimeStep | sw/src/main.rs:706-710 | each shift of the uptime loop moves one word out of the remaining value without changing the total |
| ComVerbs.CounterWords | sw/src/main.rs:819-820 | a 32-bit counter sent as two words, low word first, is recovered exactly |
| ComVerbs.LoopReply | sw/src/main.rs:437-440 | the LOOP_TEST reply carries the verb's low byte in its low byte and the sentinel's low byte in its high byte |
| ComVerbs.LoopRepliesCount | sw/src/main.rs:437-440 | successive LOOP_TEST replies count up by one modulo 256 in their high byte, across the wrap of the 16-bit sentinel |
| ComVerbs.StatusReply | sw/src/main.rs:765-786 | WLAN_STATUS always sends the fixed number of words, and all zeros when formatting or encoding failed |
| ComVerbs.MainLoop.New | sw/src/main.rs:176-248 | the sentinel and the transmit error count start at zero |
| ComVerbs.MainLoop.LoopTest | sw/src/main.rs:437-440 | LOOP_TEST replies with the current sentinel and advances it with 16-bit wrap-around |
| ComVerbs.MainLoop.NetFrameSend | sw/src/main.rs:863-908 | NET_FRAME_SEND hands on exactly the received frame, and counts a transmit error, with 32-bit wrap-around, only when a received frame fails to send |
| ComVerbs.MainLoop.ErrCounts | sw/src/main.rs:817-823 | WLAN_GET_ERRCOUNTS sends the transmit error count and then the dropped packet count, each recoverable from its two words |
| SpiFlash.OneBitWrites | sw/src/spi.rs:38-56 | a one-line byte write is eight WDATA writes, each driving only COPI |
| SpiFlash.QuadWrites | sw/src/spi.rs:59-70 | a four-line byte write is two WDATA writes on all four lines, high nibble first, whose nibbles make up the byte |
| SpiFlash.AddrBytesBigEndian | sw/src/spi.rs:151-153 | the three address bytes are the low three bytes of the address in big-endian order, from which the address is rebuilt |
| SpiFlash.OneBitRoundTrip | sw/src/spi.rs:38-56 | the bits a one-line write sends, read most significant first, are the byte |
| SpiFlash.MsbPrefix | sw/src/spi.rs:42-55 | after n clocks of a one-line write the flash has seen the top n bits of the byte |
| SpiFlash.QuadByte | sw/src/spi.rs:85-94 | a four-line read takes the first sample as the high nibble and the second as the low nibble |
| SpiFlash.OneBitReadInvertsWrite | sw/src/spi.rs:72-83 | a one-line read of CIPO bits sent most significant first yields the byte that was sent |
| SpiFlash.CmdWrites | sw/src/spi.rs:121-243 | every call of spi_cmd, accepted or not, starts by selecting the chip and sending the command byte on one line, and ends with exit_bb |
| SpiFlash.CmdLeavesBusIdle | sw/src/spi.rs:103-119 | after any command the chip is deselected and all drivers are off, and during the command the chip was selected |
| SpiFlash.SpiPort.New | sw/src/spi.rs:96-100 | a fresh port has made no writes and taken no samples |
| SpiFlash.SpiPort.Write1Bit | sw/src/spi.rs:38-56 | spi_1bit_write appends exactly the one-line writes of its byte |
| SpiFlash.SpiPort.QuadWrite | sw/src/spi.rs:59-70 | spi_quad_write appends exactly the two four-line writes of its byte |
| SpiFlash.SpiPort.Read1Bit | sw/src/spi.rs:72-83 | spi_1bit_read takes eight samples with a clock after each and returns the byte they spell most significant first |
| SpiFlash.SpiPort.QuadRead | sw/src/spi.rs:85-94 | spi_quad_read takes two samples with a clock after each and returns the byte of their nibbles |
| SpiFlash.SpiPort.ExitBb | sw/src/spi.rs:103-119 | exit_bb raises chip select, turns the drivers off and leaves bit-bang mode |
| SpiFlash.SpiPort.SendAddress | sw/src/spi.rs:148-153 | the address phase sends the three address bytes on one line or on four |
| SpiFlash.SpiPort.SendDummies | sw/src/spi.rs:162-167 | a read sends its dummy count of zero bytes on the command's lines |
| SpiFlash.SpiPort.ReadInto1Bit | sw/src/spi.rs:177-179 | a fixed-count one-line read fills the first count bytes with consecutive one-line reads and leaves the rest of the buffer alone |
| SpiFlash.SpiPort.ReadIntoQuad | sw/src/spi.rs:221-224 | a four-line read fills the whole buffer with consecutive four-line reads |
| SpiFlash.SpiPort.WriteQuad | sw/src/spi.rs:232-236 | a four-line write sends every buffer byte in order |
| SpiFlash.SpiPort.SpiCmd | sw/src/spi.rs:121-243 | spi_cmd succeeds exactly when the address and buffer fit the command (address when it uses one; buffer long enough for a one-line counted read; no one-line page program; a buffer for every four-line command), makes exactly the command's register writes, and stores read data only where the read fills it |
| SpiFlash.SpiPort.AfterCommand | sw/src/spi.rs:146-243 | after the command byte, a missing address fails the call with only exit_bb, and otherwise the address and data phases follow |
| SpiFlash.SpiPort.AddressAndData | sw/src/spi.rs:148-243 | with an address, the address phase is followed by the data phase and exit_bb, and the outcome is the buffer check's |
| SpiFlash.SpiPort.Finish | sw/src/spi.rs:161-243 | the data phase of either path and exit_bb, succeeding exactly when the buffer fits the command |
| SpiFlash.SpiPort.Finish1Bit | sw/src/spi.rs:161-194 | the one-line path reads the counted bytes when the buffer is long enough, refuses a buffer-less counted read and any write with data, and leaves unread bytes alone |
| SpiFlash.SpiPort.FinishQuad | sw/src/spi.rs:209-238 | the four-line path needs a buffer, reads every byte of it for a read and leaves it unchanged for a write |
| SpiFlash.ChooseErase | sw/src/spi.rs:258-267 | a 64 KiB block erase exactly when at least 64 KiB remain at a 64 KiB aligned address, else a 32 KiB block on the same terms, else a 4 KiB sector, always at the current address |
| SpiFlash.EraseRegion | sw/src/spi.rs:245-283 | spi_erase_region issues exactly the erases of the erase plan for its region |
| SpiFlash.EraseExtent | sw/src/spi.rs:249-267 | the erases cover the whole region and overshoot its end by less than one 4 KiB sector |
| SpiFlash.EraseContiguous | sw/src/spi.rs:249-267 | each erase starts where the ones before it end, so the erases tile the region in order |
| SpiFlash.EraseAligned | sw/src/spi.rs:258-267 | from a 4 KiB aligned start every erase is aligned to its own size |
| SpiFlash.ProgramPage | sw/src/spi.rs:285-324 | spi_program_page retries WREN until the latch reads set, issues the page program, polls until the flash is idle, and the retry counts are the first set latch and the first idle poll |
| SpiFlash.OnePageProgram | sw/src/spi.rs:299-323 | exactly one page program is issued, carrying the page's address and length, right after a WREN whose status read showed the latch set |
| PowerMgmt.Charger.New | sw/src/main.rs:154-175 | the handler's variables start from the start-up clock with a zero pass counter, zero readings, no panic, no glitch and no USB-C event pending |
| PowerMgmt.Charger.ChargerHandler | sw/src/power_mgmt.rs:44-159 | charger_handler changes the state and issues the I2C operations exactly as the handler specification says, doing nothing until more than a second has passed |
| PowerMgmt.Charger.Pass | sw/src/power_mgmt.rs:67-157 | a counted pass does the even or odd work and then the charger check, with the state and operations of the pass specification |
| PowerMgmt.Charger.UsbPass | sw/src/power_mgmt.rs:68-76 | the even pass pings the charger keepalive and, unless an event is pending, checks the USB-C controller and starts charging on an attached sink |
| PowerMgmt.Charger.BatteryPass | sw/src/power_mgmt.rs:77-148 | the odd pass reads and filters the voltage, runs the battery thresholds and samples the current |
| PowerMgmt.Charger.ReadVoltageFiltered | sw/src/power_mgmt.rs:78-85 | a negative voltage reading is replaced by the last good one and latches the glitch flag; the kept value becomes the last voltage |
| PowerMgmt.Charger.CheckBattery | sw/src/power_mgmt.rs:86-135 | below 3500 mV the panic is armed or shipmode attempted, between 3500 and 3575 mV nothing changes, from 3575 mV the panic is cleared |
| PowerMgmt.Charger.SampleCurrent | sw/src/power_mgmt.rs:136-147 | the current is read while the SoC is on, the standby current only when it is off and was off before, and the SoC's state is remembered |
| PowerMgmt.Charger.ShipIfStillLow | sw/src/power_mgmt.rs:88-112 | once armed, shipmode is entered only after eight seconds of uptime, when the charger is not charging and a fresh reading is still below 3500 mV, and then the backlight is turned off before the charger, the gauge and the power register |
| PowerMgmt.RunsOncePerSecond | sw/src/power_mgmt.rs:63-65 | nothing happens until more than a second has passed on the wrapping millisecond clock; a pass records its time and counts itself with 32-bit wrap-around |
| PowerMgmt.PassesAlternate | sw/src/power_mgmt.rs:68-148 | even passes ping the charger and touch no battery state, asking the USB-C controller exactly when no event is pending; odd passes start with the voltage and never ping or ask the USB-C controller |
| PowerMgmt.VoltageGlitchFiltered | sw/src/power_mgmt.rs:78-85 | after an odd pass the voltage is the reading or, for a negative reading, the last good voltage, and the glitch flag is latched |
| PowerMgmt.ShipmodeExactly | sw/src/power_mgmt.rs:86-107 | the device ships itself exactly on an odd pass with a voltage below 3500 mV, an already armed panic, a charge under 5 %, more than 8000 ticks since boot, no charging and a second low reading |
| PowerMgmt.FirstLowReadingOnlyArms | sw/src/power_mgmt.rs:108-112 | a first low reading with a nearly empty battery only arms the panic and never ships |
| PowerMgmt.PanicHysteresis | sw/src/power_mgmt.rs:86-135 | a voltage at or above 3575 mV clears the panic, the band from 3500 mV keeps it, and below 3500 mV it is set once the charge is under 5 % |
| PowerMgmt.CurrentSampling | sw/src/power_mgmt.rs:136-147 | the current follows the gauge while the SoC is on, the standby current only while it is off after an off pass, and the SoC state is recorded |
| PowerMgmt.ChargingPowersSoc | sw/src/power_mgmt.rs:150-157 | every pass ends by asking the charger, and a charging battery turns the SoC on with discharge off as the last operation |
| HalWf200.FirstIndexFrom | sw/wfx_rs/src/hal_wf200.rs:887-891 | the scan finds the first slot from its start holding the value, or reports that none does |
| HalWf200.Wf200.New | sw/wfx_rs/src/hal_wf200.rs:79-105 | the globals start empty: free slots, zero counters, no pending flags, an unknown link, a pending connect result and a zeroed scan log |
| HalWf200.Wf200.AllocFreeCount | sw/wfx_rs/src/hal_wf200.rs:850-858 | alloc_free_count is the number of free slots |
| HalWf200.Wf200.AllocateBuffer | sw/wfx_rs/src/hal_wf200.rs:871-902 | an oversized request fails and counts as oversize, a request with no free slot fails and counts as an allocation failure, and otherwise the first free slot takes its own address, which is returned; nothing else changes |
| HalWf200.Wf200.FreeBuffer | sw/wfx_rs/src/hal_wf200.rs:911-927 | free frees the first slot holding the address, and an address no slot holds fails without changing anything |
| HalWf200.Wf200.HostInit | sw/wfx_rs/src/hal_wf200.rs:932-952 | host init frees every slot and clears the posted event and the event payload |
| HalWf200.Wf200.HostDeinit | sw/wfx_rs/src/hal_wf200.rs:954-960 | host deinit frees every slot |
| HalWf200.Wf200.ResetChip | sw/wfx_rs/src/hal_wf200.rs:631-684 | a chip reset frees every slot and resets the link, the pending flags and the driver contexts, while keeping the scan log |
| HalWf200.Wf200.DropPacket | sw/wfx_rs/src/hal_wf200.rs:113-118 | a drop counts one more packet with 32-bit wrap-around and flags the change |
| HalWf200.Wf200.GetPacketsDropped | sw/wfx_rs/src/hal_wf200.rs:119-124 | reading the drop count clears the change flag |
| HalWf200.Wf200.PollNewDropped | sw/wfx_rs/src/hal_wf200.rs:125-134 | the drop flag is reported once and cleared |
| HalWf200.Wf200.PollDisconnectPending | sw/wfx_rs/src/hal_wf200.rs:147-153 | a pending disconnect is reported once and cleared |
| HalWf200.Wf200.PollConnectResult | sw/wfx_rs/src/hal_wf200.rs:154-160 | the connect result is reported and goes back to Pending |
| HalWf200.Wf200.PollWfxErrPending | sw/wfx_rs/src/hal_wf200.rs:161-167 | a pending driver error is reported once and cleared |
| HalWf200.Wf200.PollScanUpdated | sw/wfx_rs/src/hal_wf200.rs:1331-1337 | a scan update is reported once and cleared |
| HalWf200.Wf200.PollScanFinished | sw/wfx_rs/src/hal_wf200.rs:1338-1344 | a finished scan is reported once and cleared |
| HalWf200.Wf200.ScanResult | sw/wfx_rs/src/hal_wf200.rs:1256-1301 | a hidden SSID changes nothing; otherwise only the current entry of the eight-entry ring is written (signal capped at 255, length, and the SSID bytes when they are UTF-8), the index advances modulo 8, the best signal is the smallest seen and the update is flagged |
| HalWf200.BestRssi | sw/wfx_rs/src/hal_wf200.rs:1273-1277 | the best signal is never above the previous best or the new reading truncated to a byte, and is one of them |
| HalWf200.Wf200.StartScan | sw/wfx_rs/src/hal_wf200.rs:1303-1322 | starting a scan restarts the ring at entry 0 and zeroes only the signal byte of each entry, returning the scan command's status |
| HalWf200.Wf200.SsidGetList | sw/wfx_rs/src/hal_wf200.rs:483-494 | the caller gets every entry as it was, then the log is zeroed and restarted at entry 0 |
| HalWf200.Wf200.GetRssi | sw/wfx_rs/src/hal_wf200.rs:304-321 | get_rssi fails with 0x20 unless connected, fails with 0x01 when the driver fails, and otherwise returns the reading halved |
| HalWf200.Wf200.PostEvent | sw/wfx_rs/src/hal_wf200.rs:1502-1510 | a message with the awaited id and a length below the payload buffer is copied into it and posted; any other message leaves the buffer and the posted id alone |
| HalWf200.SendPds | sw/wfx_rs/src/hal_wf200.rs:469-481 | a PDS line succeeds exactly when it is shorter than 256 bytes and the driver accepts it |
| HalWf200.SlotRegionsDisjoint | sw/wfx_rs/src/hal_wf200.rs:843-847 | the slots hand out distinct, non-zero, non-overlapping regions inside the allocator's RAM |
| HalWf200.NoSlotIffFull | sw/wfx_rs/src/hal_wf200.rs:887-896 | allocation fails for lack of a slot exactly when every slot is taken |
| HalWf200.FreeCountZero | sw/wfx_rs/src/hal_wf200.rs:850-858 | the free count is zero exactly when no slot is free |
| HalWf200.AllocFreeRoundTrip | sw/wfx_rs/src/hal_wf200.rs:887-927 | a granted buffer freed by its address is found in the same slot, the slot list returns to what it was, and the free count goes down by one and back |
| HalWf200.FreeGivesBackOne | sw/wfx_rs/src/hal_wf200.rs:915-926 | freeing a held address frees exactly one slot and keeps the slot list well formed |
| HalWf200.FreeCountUpdate | sw/wfx_rs/src/hal_wf200.rs:850-858 | changing one slot changes the free count by exactly what that slot changed |
| HalWf200.ScanAsWrittenWhenFound | sw/wfx_rs/src/hal_wf200.rs:889-891 | when the value is present the scans as written find the same slot as the bounded scan |
| HalWf200.FullAllocationPanics | sw/wfx_rs/src/hal_wf200.rs:889 | as written, an allocation with every slot taken reads past the slot array instead of failing |
| HalWf200.FreeUnknownPanics | sw/wfx_rs/src/hal_wf200.rs:915-922 | as written, freeing an address no slot holds reads past the slot array instead of failing; the corrected scan finds no slot |
| HalWf200.Wf200.ClearSlots | sw/wfx_rs/src/hal_wf200.rs:642 | every one of the four allocation slots is freed |
| HalWf200.Wf200.ResetFlags | sw/wfx_rs/src/hal_wf200.rs:639-667 | the error, disconnect, dropped-count and scan flags are cleared, the link state is back to uninitialised, the connect result is pending and both event ids are zero |
| HalWf200.Wf200.ClearEventBuffer | sw/wfx_rs/src/hal_wf200.rs:938-939 | all 512 bytes of the event payload buffer are zero |
| Bq25618.IindpmRoundTrip | sw/betrusted-hal/src/api_bq25618.rs:16-19 | an input current limit the IINDPM field can hold is stored exactly, and the flag bits above it do not disturb it |
| Bq25618.PreTermRoundTrip | sw/betrusted-hal/src/api_bq25618.rs:53-61 | the precharge and termination currents packed into register 3 are each read back exactly |
| Bq25618.AutoParamsMeaning | sw/betrusted-hal/src/api_bq25618.rs:320-357 | the automatic parameters mean a 1.5 A input limit with the thermistor ignored, 500 mA fast charge, 40 mA precharge, 60 mA termination, a 4.5 V input voltage limit and charging on with boost off |
| Bq25618.ShipmodeValue | sw/betrusted-hal/src/api_bq25618.rs:277-285 | the shipmode byte allows the battery FET to turn off, enables its reset and selects the 10 s delay |
| Bq25618.BoostValues | sw/betrusted-hal/src/api_bq25618.rs:393-421 | boost mode turns boost on with charging off, selects 5.15 V and leaves the battery FET switch-off disallowed |
| Bq25618.ChargingIffPreOrFast | sw/betrusted-hal/src/api_bq25618.rs:287-309 | the charger counts as charging exactly when its CHG_STAT field reads precharge or fast charge |
| Bq25618.KeepaliveKeepsBits | sw/betrusted-hal/src/api_bq25618.rs:311-318 | the keepalive write-back sets the watchdog reset bit and keeps every other bit read |
| Bq25618.BtCharger.New | sw/betrusted-hal/src/api_bq25618.rs:261-263 | a new driver caches twelve zero registers |
| Bq25618.BtCharger.UpdateRegs | sw/betrusted-hal/src/api_bq25618.rs:265-275 | the cache holds the twelve registers read, in register order, one read each |
| Bq25618.BtCharger.SetShipmode | sw/betrusted-hal/src/api_bq25618.rs:277-285 | shipmode is one write of register 7 with the shipmode byte, leaving the cache alone |
| Bq25618.BtCharger.ChgIsCharging | sw/betrusted-hal/src/api_bq25618.rs:287-309 | the charging answer decodes the cached or freshly read status register, reading the bus only when not using the cache |
| Bq25618.BtCharger.ChgKeepalivePing | sw/betrusted-hal/src/api_bq25618.rs:311-318 | the keepalive reads register 1 and writes it back with the watchdog reset bit set |
| Bq25618.BtCharger.ChgSetAutoparams | sw/betrusted-hal/src/api_bq25618.rs:320-368 | registers 0 to 7 are set to the automatic parameters and committed in one write starting at register 0; the status registers in the cache are kept |
| Bq25618.BtCharger.CommitFromZero | sw/betrusted-hal/src/api_bq25618.rs:362-367 | the commit loop writes the first cached registers in one transaction starting at register 0 |
| Bq25618.BtCharger.ChgStart | sw/betrusted-hal/src/api_bq25618.rs:371-391 | starting the charger sets cached registers 0 to 2 but commits only registers 0 and 1 |
| Bq25618.BtCharger.ChgBoost | sw/betrusted-hal/src/api_bq25618.rs:393-421 | boost writes register 7, then register 1, then register 6, caching each value |
| Bq25618.BtCharger.ChgBoostOff | sw/betrusted-hal/src/api_bq25618.rs:423-432 | leaving boost writes register 1 back to charging and caches it |
| GasGauge.I16Of | sw/betrusted-hal/src/api_gasgauge.rs:56-65 | a gauge reading is a signed 16-bit value |
| GasGauge.SetFrameRoundTrip | sw/betrusted-hal/src/api_gasgauge.rs:44-48 | a set carries the command and then the value low byte first, so the gauge reads back the value written |
| GasGauge.GetIsTwosComplement | sw/betrusted-hal/src/api_gasgauge.rs:56-65 | a reading is negative exactly when the high byte's top bit is set, and it is the received word taken as two's complement, with no sign extension of the low byte |
| GasGauge.ComputeChecksum | sw/betrusted-hal/src/api_gasgauge.rs:84-91 | the checksum makes the 32 block bytes sum to 0xFF modulo 256 |
| GasGauge.WrittenBlock | sw/betrusted-hal/src/api_gasgauge.rs:127-131 | the written block carries the new capacity big-endian in bytes 10 and 11, keeps every other data byte, and has a valid checksum |
| GasGauge.DesignCapacityOrder | sw/betrusted-hal/src/api_gasgauge.rs:104-148 | the design capacity update unseals twice and enters configuration update first, writes the 33 block bytes after reading 32, and seals last |
| GasGauge.GgSet | sw/betrusted-hal/src/api_gasgauge.rs:44-48 | gg_set sends one three-byte write |
| GasGauge.GgSetByte | sw/betrusted-hal/src/api_gasgauge.rs:50-54 | gg_set_byte sends one two-byte write |
| GasGauge.GgGet | sw/betrusted-hal/src/api_gasgauge.rs:56-65 | gg_get sends one two-byte read and returns the bytes composed before the sign conversion |
| GasGauge.GgGetByte | sw/betrusted-hal/src/api_gasgauge.rs:67-74 | gg_get_byte sends one one-byte read and returns the byte |
| GasGauge.GgStart | sw/betrusted-hal/src/api_gasgauge.rs:76 | gg_start sends the clear-hibernate control code |
| GasGauge.GgSetHibernate | sw/betrusted-hal/src/api_gasgauge.rs:77 | gg_set_hibernate sends the set-hibernate control code |
| GasGauge.GgReading | sw/betrusted-hal/src/api_gasgauge.rs:78-82 | voltage, average current, average power, remaining capacity and state of charge are each one signed word read of their command |
| GasGauge.GgControl | sw/betrusted-hal/src/api_gasgauge.rs:93-101 | device type and control status write their control code and then read the control word |
| GasGauge.GgSetDesignCapacity | sw/betrusted-hal/src/api_gasgauge.rs:104-148 | the previous design capacity is returned from bytes 10 and 11 big-endian, and the gauge sees exactly the update sequence for the new one |
| GasGauge.UpdateBlock | sw/betrusted-hal/src/api_gasgauge.rs:127-131 | the block is edited to the written block: new capacity and checksum |
| GasGauge.ReadBlock | sw/betrusted-hal/src/api_gasgauge.rs:122-125 | the 32 data bytes are read one by one into a fresh 33-byte block |
| GasGauge.WriteBlock | sw/betrusted-hal/src/api_gasgauge.rs:132-134 | all 33 bytes of the block are written back in order |
| Backlight.Clamp | sw/betrusted-hal/src/api_lm3509.rs:62-65 | the programmed level never exceeds 31 and a level up to 31 is kept |
| Backlight.BrightnessFields | sw/betrusted-hal/src/api_lm3509.rs:39-72 | the brightness register holds the clamped level with its upper three bits set, the ramp field holds the rate of change, and the strings are enabled exactly for a nonzero level |
| Backlight.BtBacklight.New | sw/betrusted-hal/src/api_lm3509.rs:20-24 | a new backlight uses the slowest ramp |
| Backlight.BtBacklight.SetRateOfChange | sw/betrusted-hal/src/api_lm3509.rs:26-33 | rates above 3 are clamped to 3 |
| Backlight.BtBacklight.SetBrightness | sw/betrusted-hal/src/api_lm3509.rs:39-72 | level 0 zeroes the brightness and then shuts the strings down; any other level enables the strings and then sets the clamped brightness |
| Imu.TriesMeaning | sw/betrusted-hal/src/api_lsm6ds3.rs:101-129 | a retried access repeats the same transaction at most three times, stops at the first success and returns its byte, and fails with its own tag only after every try failed |
| Imu.ThreeTries | sw/betrusted-hal/src/api_lsm6ds3.rs:107-113 | an access succeeds exactly when one of the next three transactions does, and sends them only up to the first success |
| Imu.WritesOutcome | sw/betrusted-hal/src/api_lsm6ds3.rs:135-143 | a list of writes chained with the question mark operator only appends to the log, at most three transactions per write, and succeeds with 0 or fails with the tag of one of its writes |
| Imu.WritesOnHealthyBus | sw/betrusted-hal/src/api_lsm6ds3.rs:135-161 | on a bus where every transaction succeeds each register value is written exactly once, in order |
| Imu.WritesStop | sw/betrusted-hal/src/api_lsm6ds3.rs:135-161 | once a write has failed, the writes after it are not sent |
| Imu.InitTagsDistinct | sw/betrusted-hal/src/api_lsm6ds3.rs:136-167 | every access of init reports its own error tag |
| Imu.InitOnHealthyBus | sw/betrusted-hal/src/api_lsm6ds3.rs:146-163 | on a healthy bus init sends the reset writes, then the tap configuration, then one WHO_AM_I read, and returns the byte read |
| Imu.InitFailureNamesAccess | sw/betrusted-hal/src/api_lsm6ds3.rs:146-163 | a failed init reports the tag of the reset write, configuration write or WHO_AM_I read that failed |
| Imu.AxisMeaning | sw/betrusted-hal/src/api_lsm6ds3.rs:171-175 | a measurement is the low register's byte and the high register's byte, little-endian, and an error names the read that failed |
| Imu.TapSeenMeaning | sw/betrusted-hal/src/api_lsm6ds3.rs:192-199 | a tap is reported exactly when both TAP_IA and SINGLE_TAP are set |
| Imu.WriteReg | sw/betrusted-hal/src/api_lsm6ds3.rs:101-114 | i2c_w retries the write up to three times and returns 0 or its tag |
| Imu.WriteNext | sw/betrusted-hal/src/api_lsm6ds3.rs:101-114 | a register write made after the earlier writes of a list succeeded extends that list's run by exactly one write |
| Imu.ReadReg | sw/betrusted-hal/src/api_lsm6ds3.rs:119-129 | i2c_r retries the read up to three times and returns the first byte read or its tag |
| Imu.BootAndReset | sw/betrusted-hal/src/api_lsm6ds3.rs:135-143 | boot_and_reset performs its four writes, stopping at the first that fails |
| Imu.Init | sw/betrusted-hal/src/api_lsm6ds3.rs:146-163 | init performs the whole init run |
| Imu.GetWhoAmI | sw/betrusted-hal/src/api_lsm6ds3.rs:166-168 | WHO_AM_I is one retried read with tag 0x0C |
| Imu.GetAxis | sw/betrusted-hal/src/api_lsm6ds3.rs:171-189 | an axis is read low byte then high byte, with the axis run's result |
| Imu.GetAccelX | sw/betrusted-hal/src/api_lsm6ds3.rs:171-175 | the X axis reads OUTX_L and OUTX_H with tags 0x0D and 0x0E |
| Imu.GetAccelY | sw/betrusted-hal/src/api_lsm6ds3.rs:178-182 | the Y axis reads OUTY_L and OUTY_H with tags 0x0F and 0x10 |
| Imu.GetAccelZ | sw/betrusted-hal/src/api_lsm6ds3.rs:185-189 | the Z axis reads OUTZ_L and OUTZ_H with tags 0x11 and 0x12 |
| Imu.GetSingleTap | sw/betrusted-hal/src/api_lsm6ds3.rs:192-199 | the tap answer is the tap decode of the byte read, or the read's error |
| GasGauge.UnlockBlock | sw/betrusted-hal/src/api_gasgauge.rs:105-119 | the bus sees the two unseal writes, the configuration-update write, the flag poll and the three block-selection writes, in that order |
| GasGauge.RelockBlock | sw/betrusted-hal/src/api_gasgauge.rs:136-145 | the bus sees the reset write, the flag poll and the seal write, in that order |
| Imu.ConfigureTap | sw/betrusted-hal/src/api_lsm6ds3.rs:148-161 | the seven tap-configuration writes are sent in order with tags 0x5 to 0xB, stopping at the first that fails, whose tag is returned |
| Backlight.BtBacklight.MaxBrightness | sw/betrusted-hal/src/api_lm3509.rs:35-37 | the maximum brightness bounds every level the backlight can be programmed to |
| Irq.RangeTestOffByOne | sw/xous-nommu/src/irq.rs:36 | the range test as written lets through exactly one number without a slot, 32, which indexes past the table; every other number behaves as under the corrected test, which rejects 32 as not found |
| Irq.ClaimInstalls | sw/xous-nommu/src/irq.rs:31-50 | claiming a free slot installs the handler and enables exactly that interrupt, leaving every other slot and enable bit alone |
| Irq.ClaimRefuses | sw/xous-nommu/src/irq.rs:36-39 | claiming a taken slot fails as in use and a number without a slot fails as not found, changing nothing; a claim succeeds exactly on a free slot |
| Irq.FreeClears | sw/xous-nommu/src/irq.rs:52-67 | freeing empties the slot and disables exactly that interrupt, succeeding whether or not the slot held a handler |
| Irq.ClaimThenFree | sw/xous-nommu/src/irq.rs:31-67 | a claim of a free slot followed by a free restores the table, leaves that interrupt disabled and every other enable bit as it was |
| Irq.HandledCallsMeaning | sw/xous-nommu/src/irq.rs:15-19 | handle calls the handler of every pending claimed interrupt and no other, once each, with its own number, in ascending order |
| Irq.UnhandledMeaning | sw/xous-nommu/src/irq.rs:20-25 | the unhandled interrupts are exactly the pending ones without a handler |
| Irq.HandleEnablesUnclaimed | sw/xous-nommu/src/irq.rs:24 | as written, handle enables every pending interrupt that has no handler, because a set vmim bit enables, and keeps every other enable bit |
| Irq.HandleMasksUnclaimed | sw/xous-nommu/src/irq.rs:20-25 | the corrected handle disables every pending interrupt without a handler and keeps every other enable bit |
| Irq.IrqTable.New | sw/xous-nommu/src/irq.rs:5 | the handler table starts with all 32 slots empty |
| Irq.IrqTable.Claim | sw/xous-nommu/src/irq.rs:31-50 | sys_interrupt_claim updates the table and the enable register as the corrected claim specification says, and leaves interrupts enabled |
| Irq.IrqTable.Free | sw/xous-nommu/src/irq.rs:52-67 | sys_interrupt_free updates the table and the enable register as the corrected free specification says, and leaves interrupts enabled |
| Irq.IrqTable.Handle | sw/xous-nommu/src/irq.rs:7-29 | handle as written makes exactly the handler calls of the pending claimed interrupts and ORs the unhandled ones into vmim |
| Irq.IrqTable.HandleMasking | sw/xous-nommu/src/irq.rs:20-25 | the corrected handle makes the same calls and clears the unhandled interrupts from vmim |
| Multiboot.Entry | betrusted_ec.py:732-751 | each entry is exactly 32 bytes |
| Multiboot.Padded | betrusted_ec.py:728-729 | the padding loop keeps the given offsets and appends copies of the first until there are five |
| Multiboot.PaddedIdempotent | betrusted_ec.py:728-729 | padding a padded list changes nothing |
| Multiboot.HeaderLayout | betrusted_ec.py:732-751 | each 32-byte entry begins with the sync header, carries its offset modulo 2^24 big-endian as the boot address, and ends with the reboot command and zero padding |
| Multiboot.MakeMultibootHeader | betrusted_ec.py:705-752 | the caller's offset list is padded in place and the header is the entries of the padded list; an empty list raises and writes nothing |
| Multiboot.DefaultListTwice | betrusted_ec.py:705 | two calls sharing the default list both write the five-entry header of 160, the first having padded the shared list |
| Multiboot.BuildHeaderFits | betrusted_ec.py:844-850 | the build's header is 160 bytes, exactly where its first image starts, needs no padding, and every offset reads back from its entry |
| RandomRom.XorshiftNonZero | betrusted-ec.py:162-166 | a nonzero state never steps to zero |
| RandomRom.StatesNonZero | betrusted-ec.py:162-179 | a chain started from a nonzero state never reaches zero |
| RandomRom.StateBits | betrusted-ec.py:168-174 | the bits collected are the low bits of the successive states |
| RandomRom.WordValueBits | betrusted-ec.py:170-173 | bit i of the assembled word is the i-th collected bit |
| RandomRom.WordValueAppend | betrusted-ec.py:172-173 | setting the next higher bit adds its power of two and keeps the word below the next power |
| RandomRom.GetRandBits | betrusted-ec.py:168-174 | bit i of get_rand's word is the low bit of the state after i+1 steps |
| RandomRom.GetRand | betrusted-ec.py:168-174 | the get_rand loop computes its specification: 32 steps, each low bit placed at its step's position |
| RandomRom.RomWordsFirst | betrusted-ec.py:176-179 | the first ROM word is get_rand of 1 |
| RandomRom.RomWordsChain | betrusted-ec.py:176-179 | every later ROM word is get_rand of the word before it |
| RandomRom.RandomFirmwareRom | betrusted-ec.py:156-180 | the ROM holds size/4 words of the chain from 1, whatever seed is passed |
| RandomRom.HexLine | betrusted-ec.py:708 | each exported line is exactly eight lower-case hex digits reading back as the word |
| RandomRom.HexLines | betrusted-ec.py:706-708 | one eight-digit line per word, in order, each reading back as its word |
| RandomRom.ExportRomLines | betrusted-ec.py:686-709 | the exported file lists the first 0x800 ROM words as hex lines, the same chain the ROM holds |
| Numerals.Format | sw/wfx-pds-compress.py:171 | a formatted number is a non-empty digit string of its base, each letter in the case asked for |
| Numerals.FormatValue | sw/wfx-pds-compress.py:169-183 | reading back a formatted number gives the number |
| Numerals.LeadingZeros | sw/wfx-pds-compress.py:169-183 | leading zeros do not change a digit string's value |
| Numerals.PaddedHex | betrusted-ec.py:708 | zero-padded hex has at least the requested width, exactly that width when the number fits, and reads back as the number |
| Numerals.FormatFits | betrusted-ec.py:708 | a value below 16^k has at most k hex digits |
| Numerals.ParseInt | betrusted_ec.py:438-442 | on strings without sign, white space or base prefix, int succeeds exactly on digits of its base with single `_` separators between digits, and gives the value of the digits with the separators dropped |
| Numerals.ParseIntPlain | betrusted_ec.py:438-442 | a plain digit string reads as its value |
| Numerals.ParseIntSeparators | betrusted_ec.py:438-442 | `9_1` reads as 91, while a leading, trailing or doubled `_` makes int raise |
| Numerals.MakeInt | betrusted_ec.py:438-442 | makeint is int's value, or 0 when int raises |
| Numerals.MakeIntFormat | betrusted_ec.py:438-442 | makeint reads back the decimal or hex text of every number |
| GitDescribe.Split | betrusted_ec.py:476 | split always yields at least one piece, empty pieces included |
| GitDescribe.SplitNone | betrusted_ec.py:476 | a string without the separator is one piece |
| GitDescribe.SplitJoin | betrusted_ec.py:476 | the first separator ends the first piece |
| GitDescribe.StripLine | betrusted_ec.py:470 | stripping the newline git ends its output with gives back a line without white space at its ends |
| GitDescribe.DecodeVersion | betrusted_ec.py:451-462 | decode_version reads the first three dot-separated fields as decimal numbers, each 0 when missing or not a number |
| GitDescribe.DecodeTriple | betrusted_ec.py:451-462 | decode_version reads back the numbers of a dotted triple |
| GitDescribe.ParseDescribe | betrusted_ec.py:470-500 | an empty git output raises; otherwise a trailing plus marks a dirty tree and the rest is read from the dash-separated pieces |
| GitDescribe.DescribeLongStrip | betrusted_ec.py:470-474 | the long describe line ends in a plus exactly for a dirty tree, and cutting it leaves the body |
| GitDescribe.DescribeBodySplit | betrusted_ec.py:476 | the body splits into the tag, the commit count and the g-prefixed hash |
| GitDescribe.ParseDescribeLong | betrusted_ec.py:463-500 | the parser reads back every field of the long describe line: major, minor, revision, commit count, hash and dirty flag |
| GitDescribe.ParseExactTag | betrusted_ec.py:494-498 | a bare tag yields its three numbers and nothing else |
| EcSoc.ReloadFits | betrusted_ec.py:162 | the extcomm divider's 12e6 reload fits its 24-bit register |
| EcSoc.DividerCountsDown | betrusted_ec.py:162-168 | the extcomm divider counts straight down from any value and reloads one clock after 0, so its period is reload + 1 clocks |
| EcSoc.ExtcommWindow | betrusted_ec.py:170-174 | extcomm is high in exactly the last 13 clocks of each divider period |
| EcSoc.WdogTransitions | betrusted_ec.py:195-234 | the watchdog arms on the first cycle after it is enabled, only 0x600d then 0xc0de disarms it, a wrong second code re-arms it, and a disarmed watchdog re-arms on the next cycle |
| EcSoc.WdogKick | betrusted_ec.py:208-234 | writing the two codes within one period takes an armed watchdog to DISARMED, where the next cycle re-arms it without a reset |
| EcSoc.Watchdog.constructor | betrusted_ec.py:162-195 | every register starts at its reset value: divider at 12e6, extcomm low, watchdog disabled and IDLE |
| EcSoc.Watchdog.Step | betrusted_ec.py:162-234 | one clock: the system reset is raised exactly on a cycle in ARMED or DISARM1 and then returns every register to its reset value; otherwise divider, extcomm, edge register, enable latch and FSM take their next values |
| EcSoc.EnabledSticky | betrusted_ec.py:183-190 | once enabled the watchdog stays enabled through any run of clocks without a reset, whatever the enable field says |
| EcSoc.WdogResetOnlyArmed | betrusted_ec.py:208-221 | the watchdog resets the system only on a cycle and never from IDLE, WAIT_ARM or DISARMED |
| EcSoc.PowerOutputs | betrusted_ec.py:419-427 | the FPGA discharge pad is driven only while s0 is low and discharge is requested; the state status mirrors s0 |
| EcSoc.DischargeOnlyWhenOff | betrusted_ec.py:419-427 | discharge is driven exactly when it is requested and the FPGA is off; sys_on and u_to_t_on follow the self and soc_on fields |
| EcSoc.FlashReadPort.constructor | betrusted_ec.py:345-347 | the read handshake starts idle with no acknowledge |
| EcSoc.FlashReadPort.Step | betrusted_ec.py:345-360 | a strobe with no read active starts a read; an active read with ready data acknowledges and ends; every other case drops both |
| EcSoc.ReadStep | betrusted_ec.py:347-360 | an acknowledge follows only an active read whose data is ready, and a read starts only when none is active |
| EcSoc.AckNotRepeated | betrusted_ec.py:347-360 | a read is never active and ack is never high on two clocks running, whatever the bus does |
| EcSoc.GitInfoVersion | betrusted_ec.py:443-500 | a failed git gives all-zero version fields; otherwise the describe output is parsed |
| EcSoc.GitInfoRegisters | betrusted_ec.py:502-512 | the gitrev CSR holds a 32-bit value |
| EcSoc.GitInfoFromDescribe | betrusted_ec.py:463-512 | built from a long describe of a commit the CSRs hold its abbreviated hash and dirty mark; built where git fails they hold zeros |
| LegacySoc.PorCounter.constructor | betrusted-ec.py:123 | the power-on counter starts at 4095 |
| LegacySoc.PorCounter.Step | betrusted-ec.py:146-149 | one clock: the counter counts down and stops at 0, and the por domain's reset reloads it |
| LegacySoc.DelayCountsDown | betrusted-ec.py:146-149 | after k clocks the counter holds delay - k, and 0 once k passes delay |
| LegacySoc.PowerOnReset | betrusted-ec.py:135 | the system domain is held in reset for exactly the first 4095 clocks after power-on |
| LegacySoc.DoResetKey | betrusted-ec.py:252-254 | a warm boot is triggered exactly when bits 7..2 of the control register read 101011, that is by 0xAC to 0xAF |
| LegacySoc.WarmBootImage | betrusted-ec.py:256-260 | the S1/S0 bits select one of the four warm-boot entries after the power-on entry |
| LegacySoc.WarmBootTarget | betrusted-ec.py:246-260 | writing 0xAC + s triggers a warm boot into the image at the s-th warm-boot offset of the build's multiboot header |
| LegacySoc.ModelLetter | betrusted-ec.py:456-465 | a known board model gives its upper-case initial and anything else gives '?' |
| LegacySoc.Registers | betrusted-ec.py:439-455 | each version CSR holds its field cut to 8, 8, 8, 32 or 10 bits, unchanged when it fits |
| LegacySoc.GetGitverAsWritten | betrusted-ec.py:380-437 | a failed git makes get_gitver return None |
| LegacySoc.GitFailureAborts | betrusted-ec.py:447 | building outside a git checkout raises TypeError when the None is unpacked into six values |
| LegacySoc.VersionFallback | betrusted-ec.py:373-465 | the corrected build agrees with the original wherever git succeeds and gives zero version fields with the model letter where git fails |
| LegacySoc.VersionAtTag | betrusted-ec.py:375-437 | at a tagged commit the short describe line gives the CSRs the tag's three numbers and zero for the rest |
| TickTimer.BitsForBounds | rtl/ticktimer.py:22 | a value fits in the bits migen allots it and needs all of them |
| TickTimer.ReloadAsWrittenExact | rtl/ticktimer.py:22 | the prescaler keeps clkspertick exactly unless it is a power of two, which its width is one bit too small for and which it stores as 0 |
| TickTimer.PowerOfTwoReloadIsZero | rtl/ticktimer.py:22 | with 1024 clocks per tick the prescaler is 10 bits, reloads with 0, and the timer advances on every clock |
| TickTimer.Step | rtl/ticktimer.py:31-45 | a reset zeroes the timer and reloads the prescaler; otherwise the prescaler counts down, and at 0 it reloads and the 48-bit timer advances by one unless paused |
| TickTimer.RunCountsDown | rtl/ticktimer.py:41-43 | between reloads the prescaler counts down one per clock and the timer is unchanged |
| TickTimer.TickPeriod | rtl/ticktimer.py:31-45 | running unpaused the timer advances by exactly one every reload + 1 clocks, modulo 2^48 |
| TickTimer.RunSplit | rtl/ticktimer.py:31-45 | running a + b clocks is running a clocks and then b |
| TickTimer.Timer.constructor | rtl/ticktimer.py:22-23 | the prescaler starts at the reload value and the timer at 0 |
| TickTimer.Timer.Tick | rtl/ticktimer.py:31-47 | one clock of the register block follows the step function, and the time CSR reads the timer |
| RtlI2c.CommandRoundTrip | rtl/rtl_i2c.py:50-57 | the command fields read back from bits 7, 6, 5, 4, 3 and 0 of the command register, and the cleared register is 0 |
| RtlI2c.ByteCtrlIn | rtl/rtl_i2c.py:88-92 | stop, read and write reach the byte controller masked while it acknowledges; otherwise the command passes through unchanged |
| RtlI2c.StatusFields | rtl/rtl_i2c.py:65-71 | rxack, busy, arbitration lost, tip and intflag each read back from their own status bit, and bits 4..2 read 0 |
| RtlI2c.Controller.constructor | rtl/rtl_i2c.py:43-64 | the command register and all flags start clear |
| RtlI2c.Controller.Write | rtl/rtl_i2c.py:43-57 | a CPU write to the command register sets every command field from its own bit and leaves the status flags alone |
| RtlI2c.Controller.Step | rtl/rtl_i2c.py:117-129 | one clock: tip follows read or write, intflag and arb_lost take their next values, and done or arbitration lost writes 0 to the command register |
| RtlI2c.IntflagSticky | rtl/rtl_i2c.py:127 | a set interrupt flag stays set through any run of cycles without iack |
| RtlI2c.IackWins | rtl/rtl_i2c.py:127 | iack clears the interrupt flag whatever else happens in that cycle; without it the flag is set by done, al or itself |
| RtlI2c.ArbLostSticky | rtl/rtl_i2c.py:128 | a set arbitration-lost flag stays set through any run of cycles without a start |
| RtlI2c.AlWins | rtl/rtl_i2c.py:128 | al sets arbitration lost even with a start, and a start alone clears it |
| RtlI2c.DoneClearsCommand | rtl/rtl_i2c.py:117-126 | after the byte controller reports done the command register is empty, and one clock later tip is clear |
| RingOsc.Next | rtl/trng/ring_osc.py:38-55 | one clock keeps the 32-bit register and a count below 32, and the edge detector takes the strobe |
| RingOsc.NextEffect | rtl/trng/ring_osc.py:41-46 | without a read or strobe edge only the edge detector changes; on an edge the new bit enters bit 0 and the older bits move up by one |
| RingOsc.CountsEdges | rtl/trng/ring_osc.py:38-55 | through a run without reads the count climbs one per strobe edge up to 31 and fresh is set exactly when the edges carried it past 31 |
| RingOsc.FreshAfterRead | rtl/trng/ring_osc.py:28-55 | after a read of rand, fresh is set exactly once 32 strobe edges have passed |
| RingOsc.RandCollector.constructor | rtl/trng/ring_osc.py:28-37 | the rand register, count, fresh flag and edge detector start clear |
| RingOsc.RandCollector.Step | rtl/trng/ring_osc.py:38-55 | one clock of the collector registers follows the next-state function |
| RingOsc.Stages | rtl/trng/ring_osc.py:62-64 | the stage count is odd and lies between period/delay + 1 and period/delay + 2 |
| RingOsc.DefaultStages | rtl/trng/ring_osc.py:146-151 | at the default 1 MHz target the UP5K ring has 91 stages and the Spartan-7 ring 335, and the middle-stage tap is on the ring |
| RingOsc.OddRingNeverSettles | rtl/trng/ring_osc.py:219-220 | an enabled ring with an odd number of inverters has no settled state |
| RingOsc.EvenRingCanSettle | rtl/trng/ring_osc.py:62-64 | an enabled ring with an even number of stages has a settled state, which is why the count is made odd |
| RingOsc.DisabledRingSettles | rtl/trng/ring_osc.py:219-220 | with ena clear the ring has a settled state |
| RtlSpi.ShiftIn | rtl/spi.py:78 | the receive register shifted up by one with the new bit in bit 0 and the older bits one place higher |
| RtlSpi.MasterStep | rtl/spi.py:55-98 | one spi clock of the controller keeps its registers well formed and records go for edge detection |
| RtlSpi.Start | rtl/spi.py:69-78 | a rising edge of go in IDLE starts a transfer with a well-formed state |
| RtlSpi.Shift | rtl/spi.py:88-92 | a RUN clock with bits left keeps the state well formed |
| RtlSpi.MasterAfter | rtl/spi.py:64-98 | any number of clocks keeps the controller's state well formed |
| RtlSpi.MisoBits | rtl/spi.py:78 | the MISO samples of the first n clocks, in order |
| RtlSpi.SendingStarts | rtl/spi.py:68-78 | the clock with the rising edge of go drops the chip select, puts bit 15 of tx on MOSI and captures the first MISO bit |
| RtlSpi.SendingShifts | rtl/spi.py:87-92 | each later clock sends the next lower bit of the data and captures one more MISO bit |
| RtlSpi.SendingEnds | rtl/spi.py:93-97 | the clock after the 16th bit raises the chip select, clears tip and leaves the 16 captured bits in rx, the first in bit 15 |
| RtlSpi.MasterSending | rtl/spi.py:64-98 | after n clocks of a transfer the controller is sending the data with the first n MISO bits captured |
| RtlSpi.MasterSends | rtl/spi.py:68-92 | a transfer sends the 16 bits of tx most significant first with the chip select low, one per clock |
| RtlSpi.MasterReceives | rtl/spi.py:64-98 | a transfer leaves the 16 MISO bits in rx, the first in bit 15, and returns to IDLE with the chip select high and tip and txfull clear |
| RtlSpi.GoHeldStartsOnce | rtl/spi.py:55-59 | go held high starts only one transfer, since IDLE needs a rising edge |
| RtlSpi.SpiMaster.constructor | rtl/spi.py:44-67 | the controller starts in IDLE with the chip select high and its registers clear |
| RtlSpi.SpiMaster.Step | rtl/spi.py:55-98 | one spi clock of the registers follows the controller's step function |
| RtlSpi.ShiftStep | rtl/spi.py:233-249 | one clock of the responder's shifter keeps it well formed and records the chip select for edge detection |
| RtlSpi.ShiftFrame | rtl/spi.py:238-240 | any number of low chip-select clocks keep the shifter well formed |
| RtlSpi.FrameShifting | rtl/spi.py:238-240 | after n low clocks the n received bits sit at the bottom of the shift register, the latest in bit 0, the loaded word has moved up by n, and rx is untouched |
| RtlSpi.ResponderSends | rtl/spi.py:233-240 | during a frame the responder drives the loaded word onto MISO most significant bit first |
| RtlSpi.ResponderReceives | rtl/spi.py:241-248 | when the chip select rises after a 16-bit frame rx holds the 16 MOSI bits, the first in bit 15, and the shift register reloads from tx |
| RtlSpi.SpiShifter.Step | rtl/spi.py:233-249 | one clock of the shifter registers follows the shifter's step function |
| RtlSpi.FlagsStep | rtl/spi.py:204-231 | tip follows the chip select; a read of rx clears rxfull; a frame end sets it; a frame starting over unread data sets rxover, and rxover is never set otherwise |
| RtlSpi.ClearOverrun | rtl/spi.py:223-229 | clrerr clears an overrun only in a clock with no frame running over unread data and no rx read |
| RtlSpi.OverrunSticky | rtl/spi.py:223-229 | once set, the overrun flag stays set through any run of clocks without clrerr |
| RtlSpi.RxfullUntilRead | rtl/spi.py:213-221 | rxfull stays set until rx is read, whatever the bus does |
| RtlSpi.SpiSlaveFlags.Step | rtl/spi.py:204-231 | one clock of the flag registers follows the flags' step function |
| RtlSpi.RdFifoPops | rtl/spi.py:113-125 | the receive FIFO loses at most its head in a clock and only on a pop; everything else keeps its order |
| RtlSpi.ReadKeepsValid | rtl/spi.py:115-137 | a pop is only ever pending on a non-empty FIFO right after a read strobe, from reset and after every clock |
| RtlSpi.ReadAnswer | rtl/spi.py:118-136 | a read strobe is answered once, one clock later: with 0xdeadbeef and no pop from an empty FIFO, or with the head, which the next clock pops |
| RtlSpi.OnePopPerStrobe | rtl/spi.py:119-135 | a pop is set up only by a new read strobe and never twice in a row |
| RtlSpi.ReadResponder.constructor | rtl/spi.py:113-117 | the read side starts with an empty FIFO and no pop or acknowledge pending |
| RtlSpi.ReadResponder.Step | rtl/spi.py:115-137 | one clock of the read side follows the read responder's step function |
| RtlSpi.WriteKeepsValid | rtl/spi.py:139-156 | a push is only ever pending on a FIFO with room, with the write acknowledge alongside |
| RtlSpi.WriteOnlyWithRoom | rtl/spi.py:140-156 | a write is taken and acknowledged exactly when it is a new write cycle and the FIFO has room, and its word lands at the FIFO's tail one clock later |
| RtlSpi.WriteResponder.constructor | rtl/spi.py:139 | the write side starts with an empty FIFO and no acknowledge |
| RtlSpi.WriteResponder.Step | rtl/spi.py:140-156 | one clock of the write side follows the write responder's step function |
| PdsText.StripQuotes | sw/wfx-pds-compress.py:71-72 | at most one character is taken from each end of the value |
| PdsText.StripQuotesSpec | sw/wfx-pds-compress.py:71-72 | quoting is undone, only one quote is taken from each end, and an unquoted value is kept as it is |
| PdsText.ResolveOneLevel | sw/wfx-pds-compress.py:69-70 | only one level of indirection is followed: a definition naming another definition resolves to that name |
| PdsText.ResolveQuoted | sw/wfx-pds-compress.py:69-72 | a quoted literal that names no definition is stored without its quotes |
| PdsText.TopIsActive | sw/wfx-pds-compress.py:78-112 | on a well-nested stack the top entry is set exactly when every enclosing condition holds |
| PdsText.ActiveBelow | sw/wfx-pds-compress.py:84-87 | on a well-nested stack an active top implies every level below it is active |
| PdsText.IfdefStepSpec | sw/wfx-pds-compress.py:78-112 | #ifdef/#ifndef push parent-active-and-condition; #else flips the top only under an active parent and raises IndexError on the file level; #endif pops and reports only at the file level; text passes exactly when every enclosing condition holds; the stack stays well nested |
| PdsText.IfdefBlock | sw/wfx-pds-compress.py:78-112 | an #ifdef block with #else in active text keeps the first branch exactly when the name is defined and the second otherwise, and leaves the stack as it found it |
| PdsText.RunAt | sw/wfx-pds-compress.py:196-214 | the outputs of a run of lines are the first line's output followed by those of the rest |
| PdsText.Preprocessor.constructor | sw/wfx-pds-compress.py:55-59 | no definitions, a stack holding only the active file level, and no error reported |
| PdsText.Preprocessor.AddDefine | sw/wfx-pds-compress.py:66-76 | the name is bound to the value resolved one level and unquoted; a redefinition or an invalid token value fails the run; the stack is untouched |
| PdsText.Preprocessor.HandleIfdef | sw/wfx-pds-compress.py:78-112 | one line through the #ifdef stack: the text passed on and the new stack, or the IndexError raised; definitions untouched |
| PdsText.FindPair | sw/wfx-pds-compress.py:200-208 | a two-character mark found in the text starts at or after the search position and lies wholly inside the text |
| PdsText.FindPairAt | sw/wfx-pds-compress.py:200-208 | the first occurrence of a mark is the one found |
| PdsText.FindPairNone | sw/wfx-pds-compress.py:200-208 | a mark that does not occur is not found |
| PdsText.CommentWithSlashes | sw/wfx-pds-compress.py:206-208 | a block comment holding // is taken as left open by the script and swallows the following lines; taken in order it becomes one space |
| PdsText.ScanStep | sw/wfx-pds-compress.py:206-208 | a character other than a slash is kept and the comment scan goes on |
| PdsText.ScanPrefix | sw/wfx-pds-compress.py:206-208 | text without a slash before the rest is kept as it is |
| PdsText.ScanPlain | sw/wfx-pds-compress.py:206-208 | text without a slash has no comment to remove |
| PdsText.ScanLineComment | sw/wfx-pds-compress.py:206-212 | a // comment ends the line, and a block comment left open ends the line and is reported open |
| PdsText.ScanClosedComment | sw/wfx-pds-compress.py:207 | a block comment closed on the line becomes one space whatever it holds, and the text after it is scanned on |
| PdsText.InsideComment | sw/wfx-pds-compress.py:199-204 | inside a multi-line comment a line without the closing mark is dropped, and a line with one continues after it |
| PdsText.RemoveSpaces | sw/wfx-pds-compress.py:219 | no white space is left and nothing is added |
| PdsText.RemoveSpacesSpec | sw/wfx-pds-compress.py:219 | white-space removal works piece by piece |
| PdsText.RemoveSpacesKeeps | sw/wfx-pds-compress.py:219 | text without white space is kept whole |
| PdsText.RunLenSpec | sw/wfx-pds-compress.py:180-182 | a number match is the longest run of digits and separators at its start |
| PdsText.RemoveUnderscoresDigits | sw/wfx-pds-compress.py:171 | a run without its separators is a digit string of its base |
| Numerals.RemoveUnderscoresKeeps | sw/wfx-pds-compress.py:171 | text without separators is kept whole |
| PdsText.PassKeeps | sw/wfx-pds-compress.py:180-181 | a hexadecimal or binary pass whose prefix letter does not occur changes nothing |
| PdsText.PassWhole | sw/wfx-pds-compress.py:170-182 | a whole number of a pass's pattern is replaced by its value written back, or raises ValueError when it holds only separators |
| PdsText.ReplaceNumbersValue | sw/wfx-pds-compress.py:169-183 | a hexadecimal, binary or decimal number comes out as the upper-case hexadecimal numeral of the same value; a number of separators only raises ValueError |
| PdsText.DecimalPasses | sw/wfx-pds-compress.py:181-182 | a decimal numeral passes the binary pass unchanged and the decimal pass turns it into the hexadecimal numeral of its value |
| PdsSyntax.TokenOf | sw/wfx-pds-compress.py:234-239 | no character is classed as the start or end marker |
| PdsSyntax.Tokens | sw/wfx-pds-compress.py:229-240 | one class per character in order, then the end marker |
| PdsSyntax.CheckSyntax | sw/wfx-pds-compress.py:242-293 | the loop over the tokens gives the verdict of the check as written, crash included |
| PdsSyntax.SyntaxAsWrittenAgrees | sw/wfx-pds-compress.py:267-293 | the script as written and the corrected check accept the same token streams; the crash is a rejection in the corrected one |
| PdsSyntax.ExtraCloserCrashes | sw/wfx-pds-compress.py:282-283 | a stray closing brace after the outer object, as in {}}, passes the transition table and pops the empty stack, raising IndexError |
| PdsSyntax.SyntaxSpec | sw/wfx-pds-compress.py:253-293 | the check accepts exactly when each token may follow the one before and the brackets match kind for kind with none left open at the end |
| PdsSyntax.FileSyntax | sw/wfx-pds-compress.py:242-293 | the same characterisation for the token stream of a whole text |
| PdsSyntax.FixOutermost | sw/wfx-pds-compress.py:185-191 | the result starts with an opening bracket, and text that already does is left alone |
| PdsSyntax.FixOutermostSpec | sw/wfx-pds-compress.py:185-191 | wrapping is idempotent, keeps the text whole between the added braces, and gives a first token the start state accepts |
| PdsSyntax.DropCommaBefore | sw/wfx-pds-compress.py:492-493 | one comma-collapse pass never lengthens the text |
| PdsSyntax.DropCommaBeforeHead | sw/wfx-pds-compress.py:492-493 | the first character of one pass is the closer when the text starts with a comma before it, else the text's own first character |
| PdsSyntax.CollapseSpec | sw/wfx-pds-compress.py:492-493 | the two passes in a row remove exactly the commas directly before a closing bracket |
| PdsSyntax.CollapseClean | sw/wfx-pds-compress.py:492-493 | without two commas in a row, no comma is left before a closing bracket |
| PdsSyntax.UncommaClean | sw/wfx-pds-compress.py:492-493 | removing the commas before closers leaves none before a closer when no two commas were adjacent |
| PdsSyntax.SplitUnfold | sw/wfx-pds-compress.py:359-367 | a piece ends at each closing bracket that brings the depth back to 1; any other character joins the piece under way |
| PdsSyntax.PiecesEndInCloser | sw/wfx-pds-compress.py:363-367 | every emitted piece ends with the closing bracket that ended it |
| PdsSyntax.SplitCovers | sw/wfx-pds-compress.py:359-367 | the pieces and the rest put back together are the text, nothing lost or reordered |
| PdsSyntax.Members | sw/wfx-pds-compress.py:366 | one member per piece |
| PdsSyntax.SplitQuiet | sw/wfx-pds-compress.py:359-367 | text that ends no piece joins the piece under way |
| PdsSyntax.SplitMember | sw/wfx-pds-compress.py:359-367 | a top-level member with a bracketed value completes the piece under way |
| PdsSyntax.MembersCons | sw/wfx-pds-compress.py:366 | the members of a list of pieces are taken piece by piece |
| PdsSyntax.SplitComma | sw/wfx-pds-compress.py:359-367 | a member behind its comma is exactly one piece |
| PdsSyntax.SplitTail | sw/wfx-pds-compress.py:359-367 | a run of comma-separated members with bracketed values gives one member per piece, in order |
| PdsSyntax.ObjectMembers | sw/wfx-pds-compress.py:355-367 | each top-level member of the outer object with a bracketed value becomes one output entry, in order |
| PdsSyntax.CBodyEmit | sw/wfx-pds-compress.py:366 | the C output grows by one entry per piece the cut emits |
| PdsSyntax.RustBodyEmit | sw/wfx-pds-compress.py:415 | the Rust output grows by one entry per piece the cut emits |
| PdsSyntax.SplitStep | sw/wfx-pds-compress.py:359-367 | one step of the cut as the loops take it |
| PdsSyntax.FormatC | sw/wfx-pds-compress.py:355-368 | the loop emits one C string per top-level piece, in order, carrying the piece's member |
| PdsSyntax.FormatRust | sw/wfx-pds-compress.py:402-417 | the loop counts the top-level pieces and emits one byte string per piece, in order |
| PdsSyntax.TokenCountAppend | sw/wfx-pds-compress.py:301-302 | the token count of joined text is the sum of the counts |
| PdsSyntax.NoTokens | sw/wfx-pds-compress.py:301-302 | text without a token character counts no tokens |
| PdsSyntax.WarningsEmit | sw/wfx-pds-compress.py:307-318 | the warnings grow by those of each piece the cut emits, numbered from 1 |
| PdsSyntax.TokenWarningsSpec | sw/wfx-pds-compress.py:308-311 | a token warning names a node exactly when that node's piece has 256 or more tokens, with its count |
| PdsSyntax.SizeWarningsSpec | sw/wfx-pds-compress.py:312-315 | a size warning names a node exactly when its piece, as measured, is 1499 or more characters, with its size |
| PdsSyntax.SizesQuiet | sw/wfx-pds-compress.py:300-306 | a character that ends no piece keeps the size check's loop invariant |
| PdsSyntax.SizesEmit | sw/wfx-pds-compress.py:305-318 | a character that ends a piece adds that piece's warnings and keeps the loop invariant |
| PdsSyntax.CheckSizesAsWritten | sw/wfx-pds-compress.py:295-320 | as written only the token limit is ever reported, since the size is never counted, and an unbalanced text ends in NameError |
| PdsSyntax.CheckSizes | sw/wfx-pds-compress.py:295-320 | corrected: each piece warns of too many tokens or too many characters, a warning fails the run, and an unbalanced text is an internal error |
| PdsSyntax.QuietPlain | sw/wfx-pds-compress.py:361-364 | bracket-free text leaves the depth unchanged and ends no piece |
| PdsSyntax.QuietAppend | sw/wfx-pds-compress.py:361-364 | text that ends no piece may be joined to more such text |
| PdsSyntax.OneMemberPiece | sw/wfx-pds-compress.py:359-367 | an object of one member with a bracketed value is one piece |
| PdsSyntax.LongMember | sw/wfx-pds-compress.py:359-367 | a member whose value is a bracketed run of digits has the member shape the cut relies on |
| PdsSyntax.SmallTokenCounts | sw/wfx-pds-compress.py:301-302 | the token counts of the pieces of the long-member example |
| PdsSyntax.LongMemberTokens | sw/wfx-pds-compress.py:301-302 | the long-member object counts two tokens, within the limit |
| PdsSyntax.SizeLimitMissed | sw/wfx-pds-compress.py:298-318 | an object with a member of 1505 characters draws no warning as written but is reported as too large by the corrected check |
| PdsText.IfdefStep | sw/wfx-pds-compress.py:78-112 | only IndexError is raised, and only on a stack of fewer than two entries; #ifdef pushes one entry, #endif pops one, other lines keep the depth; only text lines pass anything on |
| PdsText.StripCommentsAsWritten | sw/wfx-pds-compress.py:198-213 | nothing is added to the line, and a multi-line comment ends only on a line holding its closing mark |
| PdsText.Pass | sw/wfx-pds-compress.py:180-182 | one substitution raises only ValueError, and text holding no character of the number pattern is kept |
| PdsText.ReplaceNumbers | sw/wfx-pds-compress.py:169-183 | the number replacement raises only ValueError, and a line without digits or separators comes out unchanged |

## Left out

- Foreign calls: the `sl_wfx_*` vendor driver, frame sending, and the raw `*mut` casts of hal_wf200.rs. Where the model needs what they answer, it is a parameter.
- Register-level I/O drivers: hal_i2c.rs and hal_hardi2c.rs, which the drivers' transaction log stands in for; `com_tx`/`com_rx`, modelled as the words sent and `Option` words received; the debug loggers.
- Busy-wait loops (`while i2c… != 0 {}`, the WEL/WIP polls of spi.rs, the gas-gauge flag polls) are taken to end with the given outcome. Their termination is not proved.
- Delays and the clock: `delay_ms`, `get_time_ms` and `TimeMs::now` become an explicit `now` parameter. `Countdown` and `Stopwatch` are not in timers.rs and are modelled from their use in dhcp.rs.
- Cross-clock-domain behaviour: MultiReg and PulseSynchronizer latency, metastability, and the interleaving of the `sys`, `spi` and `spislave` domains. Each domain is its own step, and synchronised inputs arrive already in its domain.
- The SyncFIFOBuffered primitive is a sequence with room and readability. The SpiFifoSlave "dummy tie" of the two FIFOs (rtl/spi.py:158-162) is not modelled, nor is the SpiMaster event source.
- The I2C byte controller core instantiated by rtl/rtl_i2c.py is Verilog and is not part of this model; its `done` and `al` outputs are inputs.
- Ring-oscillator physics, the LUT placement spiral, and the floating-point period. The stage count is computed on whole nanoseconds.
- Build orchestration: LiteX/Builder setup, argparse mains, file writing, `pad_file`/`merge_file`, and the PDS compressor's `main`, `handle_include`, `formattiny` and JSON output.
- PDS regular expressions for comments, numbers, tokens and white space are modelled by the character scans they perform. `\s` and `str.strip()` use Python's full white-space set (`GitDescribe.IsSpace`). `\w` is taken on ASCII letters, digits and `_`; Python also counts non-ASCII letters and digits. The `#define` directive regex, `replace_definitions` and the text of `pr_info` messages are not modelled; `pr_info` is the `failed` flag.
- PdsText.IfdefStep: the `#ifdef`/`#ifndef`/`#else`/`#endif` classification regexes (sw/wfx-pds-compress.py:79-102) are not modelled. Each line arrives already classified as a `Line` value.
- The xorshift32 step is not shown to be invertible, so different seeds giving different ROMs is not proved.
- Numerals.ParseInt: Python's `int(s, base)` also accepts a leading `+` or `-` sign, white space around the number and, in base 16, a `0x` prefix (optionally followed by `_`). These are not modelled: such strings read as a failure (0 through `makeint`), where Python gives their value, negative ones included.
- Multiboot.MakeMultibootHeader: negative offsets are not modelled (offsets are `nat`).
- Dhcp.DhcpClient.BeginAtInit: `randomize_if_unset`, which dhcp.rs:169 calls, is not in hostname.rs, so the hostname is kept as it is.
- Dhcp.DiscoverFrameOptions: proved for hostnames of at most 26 bytes, the longest for which the end option still fits the frame's 64 option bytes.
- Dhcp.RequestFrameOptions: proved for hostnames of at most 20 bytes, for the same reason.
- The DHCP frame-builder errors 0x0B and 0x0C cannot be reached from the code shown and have no separate model.
- ComVerbs.MainLoop.NetFrameSend: `set_tx_error` (sw/src/main.rs:902) is not modelled. `com_sentinel` wraps at 16 bits and `tx_errs` at 32 bits.
- Dhcp.DhcpClient.CycleClock: dhcp.rs:251, 263, 272 and 291 call `RetryTimer::new_first_random_renew` and `schedule_next_renew`, which timers.rs does not define. They are modelled by `new_first_random` and `schedule_next` (timers.rs:69-85); any different renewal schedule those functions would give is not captured. The same holds for `Dhcp.CycleClockOf`.
- GasGauge.ComputeChecksum: the byte sum is modelled with release-build wrap-around; a debug build panics on the overflow instead (xtask/src/main.rs).
- PowerMgmt.RunsOncePerSecond: `loopcounter += 1` and the `get_time_ms() - last_run_time` subtraction are modelled with release-build wrap-around; a debug build panics on the overflow instead. The same holds for PowerMgmt.Charger.ChargerHandler.
- HalWf200.Wf200.DropPacket: `PACKETS_DROPPED += 1` wraps at 32 bits as in a release build; a debug build panics instead.
- ComVerbs.MainLoop.LoopTest: `com_sentinel += 1` wraps at 16 bits as in a release build; a debug build panics instead.
- NetPrng.NetPrng.NextInner: the two u32 additions of `next_inner` (sw/net/src/prng.rs:67) wrap as in a release build; a debug build panics on overflow, which about half of all generator states reach. NetPrng.Output, NetPrng.NetPrng.Next and the lemmas about them likewise assume the wrapping additions.
- SpiFlash.EraseRegion: `addr + erased` and `erased` are unbounded. The u32 wrap-around of a region that reaches past 4 GiB is not modelled.
- ComBus.ComInterrupts: the com_rs bit constants are not in the files shown. They are taken as distinct bit positions, and the 16-bit flag words are modelled as sets of bit positions.
- Irq.IrqTable: the 32-bit vmim and pending words are sets of interrupt numbers.
- EcPktBuf.PktBuf: modelled as written, including the link written to a copy, the enqueue index set only when it was None, and `dequeue` never freeing its slot.
- HalWf200.Wf200.ResetChip: the reset of the packet buffer, NET_STATE and the DHCP client, which live in other modules, is not modelled. The dBm conversion at sw/wfx_rs/src/hal_wf200.rs:1267 is an input.
- Imu.Init: the seven tap-configuration writes are grouped in the helper `Imu.ConfigureTap`. The delays between accesses are not modelled.
- StrBuffer.StrBuf: the UTF-8 check of `as_str` is not modelled.
- An `#else` with no `#ifdef` before it raises IndexError. This is modelled as an error outcome, not as the script's traceback.
- The `spi_cmd` bit-bang timing is modelled as register writes and RDATA samples, not as pin waveforms.

## Findings

| source | as written | input that shows it | evidently intended | confidence | as-written member | corrected member |
|---|---|---|---|---|---|---|
| sw/wfx_rs/src/pkt_buf.rs:57-63 | once the ring has wrapped, a new region is placed after the newest packet whenever it fits below the end of the buffer, without checking the oldest packet above it | oldest packet at 0x3000..0x5F00, middle one at 0..0x200, newest at 0x200..0x1200 (enqueue 0x3000, 0x2F00, dequeue, enqueue 0x200, 0x1000), enqueue 0x3000 bytes: placed at 0x1200..0x4200 | refuse any region that would overlap a queued packet | high (not executed) | WfxPktBuf.WrappedEnqueueOverlaps | WfxPktBuf.EnqueueDisjoint |
| sw/src/main.rs:847 | the guard `words_sent * 2 <= packet.len() - 2` subtracts in `usize`, which underflows for a one-byte frame | a pending frame of one byte | a one-byte frame is sent as one word, its byte in the high half | high (not executed) | ComVerbs.OneByteFetchPanics | ComVerbs.FetchFrame |
| sw/wfx_rs/src/hal_wf200.rs:889 | the allocation scan reads `WFX_PTR_LIST[i]` before testing `i`, so it runs past the four slots when none is free | every slot taken, then one more allocation | fail the allocation | high (not executed) | HalWf200.FullAllocationPanics | HalWf200.Wf200.AllocateBuffer |
| sw/wfx_rs/src/hal_wf200.rs:917 | the free scan reads `WFX_PTR_LIST[i]` before testing `i`, so it runs past the four slots for an address no slot holds | a free of an address no slot holds | fail the free, changing nothing | high (not executed) | HalWf200.FreeUnknownPanics | HalWf200.Wf200.FreeBuffer |
| sw/xous-nommu/src/irq.rs:36 | the range test is `irq > 32` | claim or free of interrupt 32 | `irq >= 32`, so 32 is rejected | high (not executed) | Irq.RangeTestOffByOne | Irq.IrqTable.Claim |
| sw/xous-nommu/src/irq.rs:24 | a pending interrupt with no handler has its bit OR-ed into vmim, where a set bit enables it | a pending interrupt with no handler claimed | mask the unclaimed interrupt, as the comment says | medium (not executed) | Irq.HandleEnablesUnclaimed | Irq.HandleMasksUnclaimed |
| sw/net/src/dhcp.rs:757-766 | a pad byte advances the index and the loop reads the next tag without a bounds check | an options block that ends in a pad byte with no end option | stop at the end of the block | high (not executed) | DhcpOptions.TrailingPadPanics | DhcpOptions.AsWrittenAgreesUnlessPanic |
| rtl/ticktimer.py:22 | `Signal(max=clkspertick)` is one bit too narrow to hold `clkspertick` when it is a power of two | 1024 clocks per tick | a prescaler that reloads with clkspertick | high (not executed) | TickTimer.PowerOfTwoReloadIsZero | TickTimer.TickPeriod |
| betrusted-ec.py:447 | get_gitver returns None when git fails, and the caller unpacks six values from it | building outside a git checkout | zero version fields, as GitInfo in betrusted_ec.py does | high (not executed) | LegacySoc.GitFailureAborts | LegacySoc.VersionFallback |
| sw/wfx-pds-compress.py:206-208 | `//` is cut before block comments are removed | `a/*//*/b` | the block comment becomes one space | high (not executed) | PdsText.CommentWithSlashes | PdsText.ScanClosedComment |
| sw/wfx-pds-compress.py:282-283 | a closing bracket pops the bracket stack without checking that it is empty | `{}}` | report a parsing error | high (not executed) | PdsSyntax.ExtraCloserCrashes | PdsSyntax.SyntaxSpec |
| sw/wfx-pds-compress.py:298-318 | `num_char` is never increased, so the size limit is never reported, and `g_ret_value = 1` assigns a local | an object with one member of 1505 characters | warn about the node and fail the run | high (not executed) | PdsSyntax.SizeLimitMissed | PdsSyntax.CheckSizes |
