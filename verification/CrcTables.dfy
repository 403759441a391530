/** The two 256-entry tables, line by line as the source lays them out, and the proof that every entry
    is eight shifts of its index. */
module CrcTables {

  /** The generator of the CRC-32 in section 8 of RFC 1952, low bit first. */
  const POLY_32: bv32 := 0xedb8_8320
  /** The generator the 16-bit table was built from: thirteen bits, shifted right. */
  const POLY_16: bv16 := 0x1021

  /** One shift of a register held in a word. */
  function StepWord(poly: bv32, r: bv32): bv32 {
    (r >> 1) ^ (if r & 1 == 1 then poly else 0)
  }

  /** Eight shifts, the work one table entry stands for. */
  function StepWord8(poly: bv32, r: bv32): bv32 {
    StepWord(poly, StepWord(poly, StepWord(poly, StepWord(poly,
      StepWord(poly, StepWord(poly, StepWord(poly, StepWord(poly, r))))))))
  }

  /** The entry at offset `j` of a line of eight. */
  function Of8<T>(j: bv8, e0: T, e1: T, e2: T, e3: T, e4: T, e5: T, e6: T, e7: T): T {
    if j < 4 then if j < 2 then if j == 0 then e0 else e1 else if j == 2 then e2 else e3
    else if j < 6 then if j == 4 then e4 else e5 else if j == 6 then e6 else e7
  }

  function Table32(i: bv8): bv32 {
    match i >> 3
    case 0 => Of8(i & 7, 0x00000000, 0x77073096, 0xee0e612c, 0x990951ba, 0x076dc419, 0x706af48f, 0xe963a535, 0x9e6495a3)
    case 1 => Of8(i & 7, 0x0edb8832, 0x79dcb8a4, 0xe0d5e91e, 0x97d2d988, 0x09b64c2b, 0x7eb17cbd, 0xe7b82d07, 0x90bf1d91)
    case 2 => Of8(i & 7, 0x1db71064, 0x6ab020f2, 0xf3b97148, 0x84be41de, 0x1adad47d, 0x6ddde4eb, 0xf4d4b551, 0x83d385c7)
    case 3 => Of8(i & 7, 0x136c9856, 0x646ba8c0, 0xfd62f97a, 0x8a65c9ec, 0x14015c4f, 0x63066cd9, 0xfa0f3d63, 0x8d080df5)
    case 4 => Of8(i & 7, 0x3b6e20c8, 0x4c69105e, 0xd56041e4, 0xa2677172, 0x3c03e4d1, 0x4b04d447, 0xd20d85fd, 0xa50ab56b)
    case 5 => Of8(i & 7, 0x35b5a8fa, 0x42b2986c, 0xdbbbc9d6, 0xacbcf940, 0x32d86ce3, 0x45df5c75, 0xdcd60dcf, 0xabd13d59)
    case 6 => Of8(i & 7, 0x26d930ac, 0x51de003a, 0xc8d75180, 0xbfd06116, 0x21b4f4b5, 0x56b3c423, 0xcfba9599, 0xb8bda50f)
    case 7 => Of8(i & 7, 0x2802b89e, 0x5f058808, 0xc60cd9b2, 0xb10be924, 0x2f6f7c87, 0x58684c11, 0xc1611dab, 0xb6662d3d)
    case 8 => Of8(i & 7, 0x76dc4190, 0x01db7106, 0x98d220bc, 0xefd5102a, 0x71b18589, 0x06b6b51f, 0x9fbfe4a5, 0xe8b8d433)
    case 9 => Of8(i & 7, 0x7807c9a2, 0x0f00f934, 0x9609a88e, 0xe10e9818, 0x7f6a0dbb, 0x086d3d2d, 0x91646c97, 0xe6635c01)
    case 10 => Of8(i & 7, 0x6b6b51f4, 0x1c6c6162, 0x856530d8, 0xf262004e, 0x6c0695ed, 0x1b01a57b, 0x8208f4c1, 0xf50fc457)
    case 11 => Of8(i & 7, 0x65b0d9c6, 0x12b7e950, 0x8bbeb8ea, 0xfcb9887c, 0x62dd1ddf, 0x15da2d49, 0x8cd37cf3, 0xfbd44c65)
    case 12 => Of8(i & 7, 0x4db26158, 0x3ab551ce, 0xa3bc0074, 0xd4bb30e2, 0x4adfa541, 0x3dd895d7, 0xa4d1c46d, 0xd3d6f4fb)
    case 13 => Of8(i & 7, 0x4369e96a, 0x346ed9fc, 0xad678846, 0xda60b8d0, 0x44042d73, 0x33031de5, 0xaa0a4c5f, 0xdd0d7cc9)
    case 14 => Of8(i & 7, 0x5005713c, 0x270241aa, 0xbe0b1010, 0xc90c2086, 0x5768b525, 0x206f85b3, 0xb966d409, 0xce61e49f)
    case 15 => Of8(i & 7, 0x5edef90e, 0x29d9c998, 0xb0d09822, 0xc7d7a8b4, 0x59b33d17, 0x2eb40d81, 0xb7bd5c3b, 0xc0ba6cad)
    case 16 => Of8(i & 7, 0xedb88320, 0x9abfb3b6, 0x03b6e20c, 0x74b1d29a, 0xead54739, 0x9dd277af, 0x04db2615, 0x73dc1683)
    case 17 => Of8(i & 7, 0xe3630b12, 0x94643b84, 0x0d6d6a3e, 0x7a6a5aa8, 0xe40ecf0b, 0x9309ff9d, 0x0a00ae27, 0x7d079eb1)
    case 18 => Of8(i & 7, 0xf00f9344, 0x8708a3d2, 0x1e01f268, 0x6906c2fe, 0xf762575d, 0x806567cb, 0x196c3671, 0x6e6b06e7)
    case 19 => Of8(i & 7, 0xfed41b76, 0x89d32be0, 0x10da7a5a, 0x67dd4acc, 0xf9b9df6f, 0x8ebeeff9, 0x17b7be43, 0x60b08ed5)
    case 20 => Of8(i & 7, 0xd6d6a3e8, 0xa1d1937e, 0x38d8c2c4, 0x4fdff252, 0xd1bb67f1, 0xa6bc5767, 0x3fb506dd, 0x48b2364b)
    case 21 => Of8(i & 7, 0xd80d2bda, 0xaf0a1b4c, 0x36034af6, 0x41047a60, 0xdf60efc3, 0xa867df55, 0x316e8eef, 0x4669be79)
    case 22 => Of8(i & 7, 0xcb61b38c, 0xbc66831a, 0x256fd2a0, 0x5268e236, 0xcc0c7795, 0xbb0b4703, 0x220216b9, 0x5505262f)
    case 23 => Of8(i & 7, 0xc5ba3bbe, 0xb2bd0b28, 0x2bb45a92, 0x5cb36a04, 0xc2d7ffa7, 0xb5d0cf31, 0x2cd99e8b, 0x5bdeae1d)
    case 24 => Of8(i & 7, 0x9b64c2b0, 0xec63f226, 0x756aa39c, 0x026d930a, 0x9c0906a9, 0xeb0e363f, 0x72076785, 0x05005713)
    case 25 => Of8(i & 7, 0x95bf4a82, 0xe2b87a14, 0x7bb12bae, 0x0cb61b38, 0x92d28e9b, 0xe5d5be0d, 0x7cdcefb7, 0x0bdbdf21)
    case 26 => Of8(i & 7, 0x86d3d2d4, 0xf1d4e242, 0x68ddb3f8, 0x1fda836e, 0x81be16cd, 0xf6b9265b, 0x6fb077e1, 0x18b74777)
    case 27 => Of8(i & 7, 0x88085ae6, 0xff0f6a70, 0x66063bca, 0x11010b5c, 0x8f659eff, 0xf862ae69, 0x616bffd3, 0x166ccf45)
    case 28 => Of8(i & 7, 0xa00ae278, 0xd70dd2ee, 0x4e048354, 0x3903b3c2, 0xa7672661, 0xd06016f7, 0x4969474d, 0x3e6e77db)
    case 29 => Of8(i & 7, 0xaed16a4a, 0xd9d65adc, 0x40df0b66, 0x37d83bf0, 0xa9bcae53, 0xdebb9ec5, 0x47b2cf7f, 0x30b5ffe9)
    case 30 => Of8(i & 7, 0xbdbdf21c, 0xcabac28a, 0x53b39330, 0x24b4a3a6, 0xbad03605, 0xcdd70693, 0x54de5729, 0x23d967bf)
    case _ => Of8(i & 7, 0xb3667a2e, 0xc4614ab8, 0x5d681b02, 0x2a6f2b94, 0xb40bbe37, 0xc30c8ea1, 0x5a05df1b, 0x2d02ef8d)
  }

  function Table16(i: bv8): bv16 {
    match i >> 3
    case 0 => Of8(i & 7, 0x0000, 0x17ce, 0x0fdf, 0x1811, 0x1fbe, 0x0870, 0x1061, 0x07af)
    case 1 => Of8(i & 7, 0x1f3f, 0x08f1, 0x10e0, 0x072e, 0x0081, 0x174f, 0x0f5e, 0x1890)
    case 2 => Of8(i & 7, 0x1e3d, 0x09f3, 0x11e2, 0x062c, 0x0183, 0x164d, 0x0e5c, 0x1992)
    case 3 => Of8(i & 7, 0x0102, 0x16cc, 0x0edd, 0x1913, 0x1ebc, 0x0972, 0x1163, 0x06ad)
    case 4 => Of8(i & 7, 0x1c39, 0x0bf7, 0x13e6, 0x0428, 0x0387, 0x1449, 0x0c58, 0x1b96)
    case 5 => Of8(i & 7, 0x0306, 0x14c8, 0x0cd9, 0x1b17, 0x1cb8, 0x0b76, 0x1367, 0x04a9)
    case 6 => Of8(i & 7, 0x0204, 0x15ca, 0x0ddb, 0x1a15, 0x1dba, 0x0a74, 0x1265, 0x05ab)
    case 7 => Of8(i & 7, 0x1d3b, 0x0af5, 0x12e4, 0x052a, 0x0285, 0x154b, 0x0d5a, 0x1a94)
    case 8 => Of8(i & 7, 0x1831, 0x0fff, 0x17ee, 0x0020, 0x078f, 0x1041, 0x0850, 0x1f9e)
    case 9 => Of8(i & 7, 0x070e, 0x10c0, 0x08d1, 0x1f1f, 0x18b0, 0x0f7e, 0x176f, 0x00a1)
    case 10 => Of8(i & 7, 0x060c, 0x11c2, 0x09d3, 0x1e1d, 0x19b2, 0x0e7c, 0x166d, 0x01a3)
    case 11 => Of8(i & 7, 0x1933, 0x0efd, 0x16ec, 0x0122, 0x068d, 0x1143, 0x0952, 0x1e9c)
    case 12 => Of8(i & 7, 0x0408, 0x13c6, 0x0bd7, 0x1c19, 0x1bb6, 0x0c78, 0x1469, 0x03a7)
    case 13 => Of8(i & 7, 0x1b37, 0x0cf9, 0x14e8, 0x0326, 0x0489, 0x1347, 0x0b56, 0x1c98)
    case 14 => Of8(i & 7, 0x1a35, 0x0dfb, 0x15ea, 0x0224, 0x058b, 0x1245, 0x0a54, 0x1d9a)
    case 15 => Of8(i & 7, 0x050a, 0x12c4, 0x0ad5, 0x1d1b, 0x1ab4, 0x0d7a, 0x156b, 0x02a5)
    case 16 => Of8(i & 7, 0x1021, 0x07ef, 0x1ffe, 0x0830, 0x0f9f, 0x1851, 0x0040, 0x178e)
    case 17 => Of8(i & 7, 0x0f1e, 0x18d0, 0x00c1, 0x170f, 0x10a0, 0x076e, 0x1f7f, 0x08b1)
    case 18 => Of8(i & 7, 0x0e1c, 0x19d2, 0x01c3, 0x160d, 0x11a2, 0x066c, 0x1e7d, 0x09b3)
    case 19 => Of8(i & 7, 0x1123, 0x06ed, 0x1efc, 0x0932, 0x0e9d, 0x1953, 0x0142, 0x168c)
    case 20 => Of8(i & 7, 0x0c18, 0x1bd6, 0x03c7, 0x1409, 0x13a6, 0x0468, 0x1c79, 0x0bb7)
    case 21 => Of8(i & 7, 0x1327, 0x04e9, 0x1cf8, 0x0b36, 0x0c99, 0x1b57, 0x0346, 0x1488)
    case 22 => Of8(i & 7, 0x1225, 0x05eb, 0x1dfa, 0x0a34, 0x0d9b, 0x1a55, 0x0244, 0x158a)
    case 23 => Of8(i & 7, 0x0d1a, 0x1ad4, 0x02c5, 0x150b, 0x12a4, 0x056a, 0x1d7b, 0x0ab5)
    case 24 => Of8(i & 7, 0x0810, 0x1fde, 0x07cf, 0x1001, 0x17ae, 0x0060, 0x1871, 0x0fbf)
    case 25 => Of8(i & 7, 0x172f, 0x00e1, 0x18f0, 0x0f3e, 0x0891, 0x1f5f, 0x074e, 0x1080)
    case 26 => Of8(i & 7, 0x162d, 0x01e3, 0x19f2, 0x0e3c, 0x0993, 0x1e5d, 0x064c, 0x1182)
    case 27 => Of8(i & 7, 0x0912, 0x1edc, 0x06cd, 0x1103, 0x16ac, 0x0162, 0x1973, 0x0ebd)
    case 28 => Of8(i & 7, 0x1429, 0x03e7, 0x1bf6, 0x0c38, 0x0b97, 0x1c59, 0x0448, 0x1386)
    case 29 => Of8(i & 7, 0x0b16, 0x1cd8, 0x04c9, 0x1307, 0x14a8, 0x0366, 0x1b77, 0x0cb9)
    case 30 => Of8(i & 7, 0x0a14, 0x1dda, 0x05cb, 0x1205, 0x15aa, 0x0264, 0x1a75, 0x0dbb)
    case _ => Of8(i & 7, 0x152b, 0x02e5, 0x1af4, 0x0d3a, 0x0a95, 0x1d5b, 0x054a, 0x1284)
  }

  lemma {:induction false} FirstQuarter32(i: bv8)
    requires i >> 6 == 0
    ensures Table32(i) == StepWord8(POLY_32, i as bv32)
  {
  }

  lemma {:induction false} SecondQuarter32(i: bv8)
    requires i >> 6 == 1
    ensures Table32(i) == StepWord8(POLY_32, i as bv32)
  {
  }

  lemma {:induction false} ThirdQuarter32(i: bv8)
    requires i >> 6 == 2
    ensures Table32(i) == StepWord8(POLY_32, i as bv32)
  {
  }

  lemma {:induction false} FourthQuarter32(i: bv8)
    requires i >> 6 == 3
    ensures Table32(i) == StepWord8(POLY_32, i as bv32)
  {
  }

  /** Every entry of the 32-bit table is eight shifts of its index. */
  lemma {:induction false} Table32IsSteps(i: bv8)
    ensures Table32(i) == StepWord8(POLY_32, i as bv32)
  {
    if i >> 6 == 0 {
      FirstQuarter32(i);
    } else if i >> 6 == 1 {
      SecondQuarter32(i);
    } else if i >> 6 == 2 {
      ThirdQuarter32(i);
    } else {
      FourthQuarter32(i);
    }
  }

  lemma {:induction false} FirstQuarter16(i: bv8)
    requires i >> 6 == 0
    ensures Table16(i) as bv32 == StepWord8(POLY_16 as bv32, i as bv32)
  {
  }

  lemma {:induction false} SecondQuarter16(i: bv8)
    requires i >> 6 == 1
    ensures Table16(i) as bv32 == StepWord8(POLY_16 as bv32, i as bv32)
  {
  }

  lemma {:induction false} ThirdQuarter16(i: bv8)
    requires i >> 6 == 2
    ensures Table16(i) as bv32 == StepWord8(POLY_16 as bv32, i as bv32)
  {
  }

  lemma {:induction false} FourthQuarter16(i: bv8)
    requires i >> 6 == 3
    ensures Table16(i) as bv32 == StepWord8(POLY_16 as bv32, i as bv32)
  {
  }

  /** Every entry of the 16-bit table is eight shifts of its index. */
  lemma {:induction false} Table16IsSteps(i: bv8)
    ensures Table16(i) as bv32 == StepWord8(POLY_16 as bv32, i as bv32)
  {
    if i >> 6 == 0 {
      FirstQuarter16(i);
    } else if i >> 6 == 1 {
      SecondQuarter16(i);
    } else if i >> 6 == 2 {
      ThirdQuarter16(i);
    } else {
      FourthQuarter16(i);
    }
  }
}
