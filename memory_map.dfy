/** retro_get_memory_data / retro_get_memory_size: the host asks for a memory
    region by id and gets the engine's save RAM, its real-time-clock data, or
    nothing. */
module MemoryMap {

  /** Region ids from the libretro API (libretro.h is not part of this model;
      these are the values the published API assigns). */
  const MemorySaveRam: nat := 0
  const MemoryRtc: nat := 1

  /** A pointer handed to the host; the engine's addresses are opaque. */
  datatype Pointer = Null | Address(addr: nat)

  /** What the engine reports through savedata_ptr/savedata_size and
      rtcdata_ptr/rtcdata_size (possibly null and 0 for a cartridge
      without that memory). */
  datatype EngineMemory = EngineMemory(saveData: Pointer, saveSize: nat, rtcData: Pointer, rtcSize: nat)

  /** retro_get_memory_data. */
  function MemoryData(id: nat, mem: EngineMemory): (p: Pointer)
    ensures id == MemorySaveRam ==> p == mem.saveData
    ensures id == MemoryRtc ==> p == mem.rtcData
    ensures id != MemorySaveRam && id != MemoryRtc ==> p == Null
  {
    if id == MemorySaveRam then mem.saveData
    else if id == MemoryRtc then mem.rtcData
    else Null
  }

  /** retro_get_memory_size. */
  function MemorySize(id: nat, mem: EngineMemory): (n: nat)
    ensures id == MemorySaveRam ==> n == mem.saveSize
    ensures id == MemoryRtc ==> n == mem.rtcSize
    ensures id != MemorySaveRam && id != MemoryRtc ==> n == 0
  {
    if id == MemorySaveRam then mem.saveSize
    else if id == MemoryRtc then mem.rtcSize
    else 0
  }

  /** A pointer together with its size. */
  datatype Region = Region(data: Pointer, size: nat)

  /** The regions the core exposes, as a table from id to region. */
  function Regions(mem: EngineMemory): map<nat, Region> {
    map[MemorySaveRam := Region(mem.saveData, mem.saveSize),
        MemoryRtc := Region(mem.rtcData, mem.rtcSize)]
  }

  /** The two queries always describe the same region: the table's entry
      for a listed id, and null with size 0 for every other id. */
  lemma DataAndSizeAgree(id: nat, mem: EngineMemory)
    ensures Region(MemoryData(id, mem), MemorySize(id, mem)) ==
            if id in Regions(mem) then Regions(mem)[id] else Region(Null, 0)
  {
  }

  /** A non-zero size is only ever reported for the save RAM or RTC id. */
  lemma NonEmptyOnlyForListedIds(id: nat, mem: EngineMemory)
    requires MemorySize(id, mem) != 0 || MemoryData(id, mem) != Null
    ensures id == MemorySaveRam || id == MemoryRtc
  {
  }
}
