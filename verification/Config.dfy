/** Zstd settings: clamping in the configuration loader and the final adjustment at start-up. */
module Config {
  import opened ZstdFrames

  /** The value of a range nearest to v. */
  function Nearest(v: int, lo: int, hi: int): (r: int)
    requires lo <= hi
    ensures lo <= r <= hi && forall x :: lo <= x <= hi ==> Distance(v, r) <= Distance(v, x)
  {
    if v < lo then lo else if v > hi then hi else v
  }

  function Distance(a: int, b: int): nat { if a < b then b - a else a - b }

  /** Load: missing values get defaults, present ones are clamped into their documented ranges. */
  method LoadZstd(hasMin: bool, minIn: int, hasChunk: bool, chunkIn: int, hasLevel: bool, levelIn: int)
    returns (minB: int, chunkKB: int, level: int)
    ensures 8 <= chunkKB <= 128 && 32 <= minB <= 2048 && minB < chunkKB * 1024 && 1 <= level <= 20
    ensures chunkKB == Nearest(if hasChunk then chunkIn else 32, 8, 128)
    ensures minB == Nearest(if hasMin then minIn else 256, 32, 2048)
    ensures level == Nearest(if hasLevel then levelIn else 20, 1, 20)
  {
    minB := if hasMin then minIn else 256;
    chunkKB := if hasChunk then chunkIn else 32;
    level := if hasLevel then levelIn else 20;
    if chunkKB < 8 {
      chunkKB := 8;
    } else if chunkKB > 128 {
      chunkKB := 128;
    }
    if minB < 32 {
      minB := 32;
    } else if minB > 2048 {
      minB := 2048;
    }
    var chunkB := chunkKB * 1024;
    if minB >= chunkB {
      minB := chunkB - 1;
      if minB < 32 {
        minB := 32;
      }
    }
    if level < 1 {
      level := 1;
    } else if level > 20 {
      level := 20;
    }
  }

  /** ConfigureZstdParams: the chunk size is always positive; a consistent setting is kept as it is. */
  method ConfigureZstdParams(level: int, minSizeB: int, chunkSizeB: int) returns (p: Params)
    ensures p.level == level && p.chunkSize == if chunkSizeB <= 0 then 32 * 1024 else chunkSizeB
    ensures var wanted := if minSizeB <= 0 then 256 else minSizeB;
            p.minSize == if wanted < p.chunkSize then wanted else if p.chunkSize > 32 then p.chunkSize - 1 else 32
    ensures p.minSize >= p.chunkSize <==> p.chunkSize <= 32 && p.minSize == 32
  {
    var curMin, curChunk := minSizeB, chunkSizeB;
    if curChunk <= 0 {
      curChunk := 32 * 1024;
    }
    if curMin <= 0 {
      curMin := 256;
    }
    if curMin >= curChunk {
      curMin := curChunk - 1;
      if curMin < 32 {
        curMin := 32;
      }
    }
    p := Params(level, curMin, curChunk);
  }

  /** Whatever the configuration file says, the frames written stay under the reader's size limit. */
  method StartParams(hasMin: bool, minIn: int, hasChunk: bool, chunkIn: int, hasLevel: bool, levelIn: int)
    returns (p: Params)
    ensures 8192 <= p.chunkSize <= 131072 && 32 <= p.minSize < p.chunkSize && 1 <= p.level <= 20
    ensures 0 < p.chunkSize <= MAX_STORED
  {
    var minB, chunkKB, level := LoadZstd(hasMin, minIn, hasChunk, chunkIn, hasLevel, levelIn);
    p := ConfigureZstdParams(level, minB, chunkKB * 1024);
  }
}
