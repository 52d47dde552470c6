/**
 The code table of appendix B of RFC 7541, as the source lists it, and the proof that it is one
 the decoder can rely on.  Codes of one length are consecutive numbers, each length starts where
 the previous one ended (doubled once per extra bit), and no two symbols share a code; from this
 it follows that no code is a prefix of another.
 */
module HpackHuffmanTable {
  import opened Bytes
  import opened HpackHuffman

  /** Code word and length of each symbol, sixteen symbols to a row. */
  function CodeEntry(sym: int): HuffmanCode
  {
    CodeAt(sym / 16, sym % 16)
  }

  function CodeAt(row: int, col: int): HuffmanCode
  {
    match row
    case 0 => (
      match col
      case 0 => HuffmanCode(0x1ff8, 13) case 1 => HuffmanCode(0x7fffd8, 23) case 2 => HuffmanCode(0xfffffe2, 28)
      case 3 => HuffmanCode(0xfffffe3, 28) case 4 => HuffmanCode(0xfffffe4, 28) case 5 => HuffmanCode(0xfffffe5, 28)
      case 6 => HuffmanCode(0xfffffe6, 28) case 7 => HuffmanCode(0xfffffe7, 28) case 8 => HuffmanCode(0xfffffe8, 28)
      case 9 => HuffmanCode(0xffffea, 24) case 10 => HuffmanCode(0x3ffffffc, 30) case 11 => HuffmanCode(0xfffffe9, 28)
      case 12 => HuffmanCode(0xfffffea, 28) case 13 => HuffmanCode(0x3ffffffd, 30) case 14 => HuffmanCode(0xfffffeb, 28)
      case 15 => HuffmanCode(0xfffffec, 28)
      case _ => HuffmanCode(0, 0))
    case 1 => (
      match col
      case 0 => HuffmanCode(0xfffffed, 28) case 1 => HuffmanCode(0xfffffee, 28) case 2 => HuffmanCode(0xfffffef, 28)
      case 3 => HuffmanCode(0xffffff0, 28) case 4 => HuffmanCode(0xffffff1, 28) case 5 => HuffmanCode(0xffffff2, 28)
      case 6 => HuffmanCode(0x3ffffffe, 30) case 7 => HuffmanCode(0xffffff3, 28) case 8 => HuffmanCode(0xffffff4, 28)
      case 9 => HuffmanCode(0xffffff5, 28) case 10 => HuffmanCode(0xffffff6, 28) case 11 => HuffmanCode(0xffffff7, 28)
      case 12 => HuffmanCode(0xffffff8, 28) case 13 => HuffmanCode(0xffffff9, 28) case 14 => HuffmanCode(0xffffffa, 28)
      case 15 => HuffmanCode(0xffffffb, 28)
      case _ => HuffmanCode(0, 0))
    case 2 => (
      match col
      case 0 => HuffmanCode(0x14, 6) case 1 => HuffmanCode(0x3f8, 10) case 2 => HuffmanCode(0x3f9, 10)
      case 3 => HuffmanCode(0xffa, 12) case 4 => HuffmanCode(0x1ff9, 13) case 5 => HuffmanCode(0x15, 6)
      case 6 => HuffmanCode(0xf8, 8) case 7 => HuffmanCode(0x7fa, 11) case 8 => HuffmanCode(0x3fa, 10)
      case 9 => HuffmanCode(0x3fb, 10) case 10 => HuffmanCode(0xf9, 8) case 11 => HuffmanCode(0x7fb, 11)
      case 12 => HuffmanCode(0xfa, 8) case 13 => HuffmanCode(0x16, 6) case 14 => HuffmanCode(0x17, 6)
      case 15 => HuffmanCode(0x18, 6)
      case _ => HuffmanCode(0, 0))
    case 3 => (
      match col
      case 0 => HuffmanCode(0x0, 5) case 1 => HuffmanCode(0x1, 5) case 2 => HuffmanCode(0x2, 5)
      case 3 => HuffmanCode(0x19, 6) case 4 => HuffmanCode(0x1a, 6) case 5 => HuffmanCode(0x1b, 6)
      case 6 => HuffmanCode(0x1c, 6) case 7 => HuffmanCode(0x1d, 6) case 8 => HuffmanCode(0x1e, 6)
      case 9 => HuffmanCode(0x1f, 6) case 10 => HuffmanCode(0x5c, 7) case 11 => HuffmanCode(0xfb, 8)
      case 12 => HuffmanCode(0x7ffc, 15) case 13 => HuffmanCode(0x20, 6) case 14 => HuffmanCode(0xffb, 12)
      case 15 => HuffmanCode(0x3fc, 10)
      case _ => HuffmanCode(0, 0))
    case 4 => (
      match col
      case 0 => HuffmanCode(0x1ffa, 13) case 1 => HuffmanCode(0x21, 6) case 2 => HuffmanCode(0x5d, 7)
      case 3 => HuffmanCode(0x5e, 7) case 4 => HuffmanCode(0x5f, 7) case 5 => HuffmanCode(0x60, 7)
      case 6 => HuffmanCode(0x61, 7) case 7 => HuffmanCode(0x62, 7) case 8 => HuffmanCode(0x63, 7)
      case 9 => HuffmanCode(0x64, 7) case 10 => HuffmanCode(0x65, 7) case 11 => HuffmanCode(0x66, 7)
      case 12 => HuffmanCode(0x67, 7) case 13 => HuffmanCode(0x68, 7) case 14 => HuffmanCode(0x69, 7)
      case 15 => HuffmanCode(0x6a, 7)
      case _ => HuffmanCode(0, 0))
    case 5 => (
      match col
      case 0 => HuffmanCode(0x6b, 7) case 1 => HuffmanCode(0x6c, 7) case 2 => HuffmanCode(0x6d, 7)
      case 3 => HuffmanCode(0x6e, 7) case 4 => HuffmanCode(0x6f, 7) case 5 => HuffmanCode(0x70, 7)
      case 6 => HuffmanCode(0x71, 7) case 7 => HuffmanCode(0x72, 7) case 8 => HuffmanCode(0xfc, 8)
      case 9 => HuffmanCode(0x73, 7) case 10 => HuffmanCode(0xfd, 8) case 11 => HuffmanCode(0x1ffb, 13)
      case 12 => HuffmanCode(0x7fff0, 19) case 13 => HuffmanCode(0x1ffc, 13) case 14 => HuffmanCode(0x3ffc, 14)
      case 15 => HuffmanCode(0x22, 6)
      case _ => HuffmanCode(0, 0))
    case 6 => (
      match col
      case 0 => HuffmanCode(0x7ffd, 15) case 1 => HuffmanCode(0x3, 5) case 2 => HuffmanCode(0x23, 6)
      case 3 => HuffmanCode(0x4, 5) case 4 => HuffmanCode(0x24, 6) case 5 => HuffmanCode(0x5, 5)
      case 6 => HuffmanCode(0x25, 6) case 7 => HuffmanCode(0x26, 6) case 8 => HuffmanCode(0x27, 6)
      case 9 => HuffmanCode(0x6, 5) case 10 => HuffmanCode(0x74, 7) case 11 => HuffmanCode(0x75, 7)
      case 12 => HuffmanCode(0x28, 6) case 13 => HuffmanCode(0x29, 6) case 14 => HuffmanCode(0x2a, 6)
      case 15 => HuffmanCode(0x7, 5)
      case _ => HuffmanCode(0, 0))
    case 7 => (
      match col
      case 0 => HuffmanCode(0x2b, 6) case 1 => HuffmanCode(0x76, 7) case 2 => HuffmanCode(0x2c, 6)
      case 3 => HuffmanCode(0x8, 5) case 4 => HuffmanCode(0x9, 5) case 5 => HuffmanCode(0x2d, 6)
      case 6 => HuffmanCode(0x77, 7) case 7 => HuffmanCode(0x78, 7) case 8 => HuffmanCode(0x79, 7)
      case 9 => HuffmanCode(0x7a, 7) case 10 => HuffmanCode(0x7b, 7) case 11 => HuffmanCode(0x7ffe, 15)
      case 12 => HuffmanCode(0x7fc, 11) case 13 => HuffmanCode(0x3ffd, 14) case 14 => HuffmanCode(0x1ffd, 13)
      case 15 => HuffmanCode(0xffffffc, 28)
      case _ => HuffmanCode(0, 0))
    case 8 => (
      match col
      case 0 => HuffmanCode(0xfffe6, 20) case 1 => HuffmanCode(0x3fffd2, 22) case 2 => HuffmanCode(0xfffe7, 20)
      case 3 => HuffmanCode(0xfffe8, 20) case 4 => HuffmanCode(0x3fffd3, 22) case 5 => HuffmanCode(0x3fffd4, 22)
      case 6 => HuffmanCode(0x3fffd5, 22) case 7 => HuffmanCode(0x7fffd9, 23) case 8 => HuffmanCode(0x3fffd6, 22)
      case 9 => HuffmanCode(0x7fffda, 23) case 10 => HuffmanCode(0x7fffdb, 23) case 11 => HuffmanCode(0x7fffdc, 23)
      case 12 => HuffmanCode(0x7fffdd, 23) case 13 => HuffmanCode(0x7fffde, 23) case 14 => HuffmanCode(0xffffeb, 24)
      case 15 => HuffmanCode(0x7fffdf, 23)
      case _ => HuffmanCode(0, 0))
    case 9 => (
      match col
      case 0 => HuffmanCode(0xffffec, 24) case 1 => HuffmanCode(0xffffed, 24) case 2 => HuffmanCode(0x3fffd7, 22)
      case 3 => HuffmanCode(0x7fffe0, 23) case 4 => HuffmanCode(0xffffee, 24) case 5 => HuffmanCode(0x7fffe1, 23)
      case 6 => HuffmanCode(0x7fffe2, 23) case 7 => HuffmanCode(0x7fffe3, 23) case 8 => HuffmanCode(0x7fffe4, 23)
      case 9 => HuffmanCode(0x1fffdc, 21) case 10 => HuffmanCode(0x3fffd8, 22) case 11 => HuffmanCode(0x7fffe5, 23)
      case 12 => HuffmanCode(0x3fffd9, 22) case 13 => HuffmanCode(0x7fffe6, 23) case 14 => HuffmanCode(0x7fffe7, 23)
      case 15 => HuffmanCode(0xffffef, 24)
      case _ => HuffmanCode(0, 0))
    case 10 => (
      match col
      case 0 => HuffmanCode(0x3fffda, 22) case 1 => HuffmanCode(0x1fffdd, 21) case 2 => HuffmanCode(0xfffe9, 20)
      case 3 => HuffmanCode(0x3fffdb, 22) case 4 => HuffmanCode(0x3fffdc, 22) case 5 => HuffmanCode(0x7fffe8, 23)
      case 6 => HuffmanCode(0x7fffe9, 23) case 7 => HuffmanCode(0x1fffde, 21) case 8 => HuffmanCode(0x7fffea, 23)
      case 9 => HuffmanCode(0x3fffdd, 22) case 10 => HuffmanCode(0x3fffde, 22) case 11 => HuffmanCode(0xfffff0, 24)
      case 12 => HuffmanCode(0x1fffdf, 21) case 13 => HuffmanCode(0x3fffdf, 22) case 14 => HuffmanCode(0x7fffeb, 23)
      case 15 => HuffmanCode(0x7fffec, 23)
      case _ => HuffmanCode(0, 0))
    case 11 => (
      match col
      case 0 => HuffmanCode(0x1fffe0, 21) case 1 => HuffmanCode(0x1fffe1, 21) case 2 => HuffmanCode(0x3fffe0, 22)
      case 3 => HuffmanCode(0x1fffe2, 21) case 4 => HuffmanCode(0x7fffed, 23) case 5 => HuffmanCode(0x3fffe1, 22)
      case 6 => HuffmanCode(0x7fffee, 23) case 7 => HuffmanCode(0x7fffef, 23) case 8 => HuffmanCode(0xfffea, 20)
      case 9 => HuffmanCode(0x3fffe2, 22) case 10 => HuffmanCode(0x3fffe3, 22) case 11 => HuffmanCode(0x3fffe4, 22)
      case 12 => HuffmanCode(0x7ffff0, 23) case 13 => HuffmanCode(0x3fffe5, 22) case 14 => HuffmanCode(0x3fffe6, 22)
      case 15 => HuffmanCode(0x7ffff1, 23)
      case _ => HuffmanCode(0, 0))
    case 12 => (
      match col
      case 0 => HuffmanCode(0x3ffffe0, 26) case 1 => HuffmanCode(0x3ffffe1, 26) case 2 => HuffmanCode(0xfffeb, 20)
      case 3 => HuffmanCode(0x7fff1, 19) case 4 => HuffmanCode(0x3fffe7, 22) case 5 => HuffmanCode(0x7ffff2, 23)
      case 6 => HuffmanCode(0x3fffe8, 22) case 7 => HuffmanCode(0x1ffffec, 25) case 8 => HuffmanCode(0x3ffffe2, 26)
      case 9 => HuffmanCode(0x3ffffe3, 26) case 10 => HuffmanCode(0x3ffffe4, 26) case 11 => HuffmanCode(0x7ffffde, 27)
      case 12 => HuffmanCode(0x7ffffdf, 27) case 13 => HuffmanCode(0x3ffffe5, 26) case 14 => HuffmanCode(0xfffff1, 24)
      case 15 => HuffmanCode(0x1ffffed, 25)
      case _ => HuffmanCode(0, 0))
    case 13 => (
      match col
      case 0 => HuffmanCode(0x7fff2, 19) case 1 => HuffmanCode(0x1fffe3, 21) case 2 => HuffmanCode(0x3ffffe6, 26)
      case 3 => HuffmanCode(0x7ffffe0, 27) case 4 => HuffmanCode(0x7ffffe1, 27) case 5 => HuffmanCode(0x3ffffe7, 26)
      case 6 => HuffmanCode(0x7ffffe2, 27) case 7 => HuffmanCode(0xfffff2, 24) case 8 => HuffmanCode(0x1fffe4, 21)
      case 9 => HuffmanCode(0x1fffe5, 21) case 10 => HuffmanCode(0x3ffffe8, 26) case 11 => HuffmanCode(0x3ffffe9, 26)
      case 12 => HuffmanCode(0xffffffd, 28) case 13 => HuffmanCode(0x7ffffe3, 27) case 14 => HuffmanCode(0x7ffffe4, 27)
      case 15 => HuffmanCode(0x7ffffe5, 27)
      case _ => HuffmanCode(0, 0))
    case 14 => (
      match col
      case 0 => HuffmanCode(0xfffec, 20) case 1 => HuffmanCode(0xfffff3, 24) case 2 => HuffmanCode(0xfffed, 20)
      case 3 => HuffmanCode(0x1fffe6, 21) case 4 => HuffmanCode(0x3fffe9, 22) case 5 => HuffmanCode(0x1fffe7, 21)
      case 6 => HuffmanCode(0x1fffe8, 21) case 7 => HuffmanCode(0x7ffff3, 23) case 8 => HuffmanCode(0x3fffea, 22)
      case 9 => HuffmanCode(0x3fffeb, 22) case 10 => HuffmanCode(0x1ffffee, 25) case 11 => HuffmanCode(0x1ffffef, 25)
      case 12 => HuffmanCode(0xfffff4, 24) case 13 => HuffmanCode(0xfffff5, 24) case 14 => HuffmanCode(0x3ffffea, 26)
      case 15 => HuffmanCode(0x7ffff4, 23)
      case _ => HuffmanCode(0, 0))
    case 15 => (
      match col
      case 0 => HuffmanCode(0x3ffffeb, 26) case 1 => HuffmanCode(0x7ffffe6, 27) case 2 => HuffmanCode(0x3ffffec, 26)
      case 3 => HuffmanCode(0x3ffffed, 26) case 4 => HuffmanCode(0x7ffffe7, 27) case 5 => HuffmanCode(0x7ffffe8, 27)
      case 6 => HuffmanCode(0x7ffffe9, 27) case 7 => HuffmanCode(0x7ffffea, 27) case 8 => HuffmanCode(0x7ffffeb, 27)
      case 9 => HuffmanCode(0xffffffe, 28) case 10 => HuffmanCode(0x7ffffec, 27) case 11 => HuffmanCode(0x7ffffed, 27)
      case 12 => HuffmanCode(0x7ffffee, 27) case 13 => HuffmanCode(0x7ffffef, 27) case 14 => HuffmanCode(0x7fffff0, 27)
      case 15 => HuffmanCode(0x3ffffee, 26)
      case _ => HuffmanCode(0, 0))
    case 16 => (
      match col
      case 0 => HuffmanCode(0x3fffffff, 30)
      case _ => HuffmanCode(0, 0))
    case _ => HuffmanCode(0, 0)
  }

  /** The symbol that owns a code word of a given length. */
  function Owner(bits: int, code: int): int
  {
    match bits
    case 5 => (
      match code
      case 0x0 => 48 case 0x1 => 49 case 0x2 => 50 case 0x3 => 97 case 0x4 => 99 case 0x5 => 101
      case 0x6 => 105 case 0x7 => 111 case 0x8 => 115 case 0x9 => 116
      case _ => 257)
    case 6 => (
      match code
      case 0x14 => 32 case 0x15 => 37 case 0x16 => 45 case 0x17 => 46 case 0x18 => 47 case 0x19 => 51
      case 0x1a => 52 case 0x1b => 53 case 0x1c => 54 case 0x1d => 55 case 0x1e => 56 case 0x1f => 57
      case 0x20 => 61 case 0x21 => 65 case 0x22 => 95 case 0x23 => 98 case 0x24 => 100 case 0x25 => 102
      case 0x26 => 103 case 0x27 => 104 case 0x28 => 108 case 0x29 => 109 case 0x2a => 110 case 0x2b => 112
      case 0x2c => 114 case 0x2d => 117
      case _ => 257)
    case 7 => (
      match code
      case 0x5c => 58 case 0x5d => 66 case 0x5e => 67 case 0x5f => 68 case 0x60 => 69 case 0x61 => 70
      case 0x62 => 71 case 0x63 => 72 case 0x64 => 73 case 0x65 => 74 case 0x66 => 75 case 0x67 => 76
      case 0x68 => 77 case 0x69 => 78 case 0x6a => 79 case 0x6b => 80 case 0x6c => 81 case 0x6d => 82
      case 0x6e => 83 case 0x6f => 84 case 0x70 => 85 case 0x71 => 86 case 0x72 => 87 case 0x73 => 89
      case 0x74 => 106 case 0x75 => 107 case 0x76 => 113 case 0x77 => 118 case 0x78 => 119 case 0x79 => 120
      case 0x7a => 121 case 0x7b => 122
      case _ => 257)
    case 8 => (
      match code
      case 0xf8 => 38 case 0xf9 => 42 case 0xfa => 44 case 0xfb => 59 case 0xfc => 88 case 0xfd => 90
      case _ => 257)
    case 10 => (
      match code
      case 0x3f8 => 33 case 0x3f9 => 34 case 0x3fa => 40 case 0x3fb => 41 case 0x3fc => 63
      case _ => 257)
    case 11 => (
      match code
      case 0x7fa => 39 case 0x7fb => 43 case 0x7fc => 124
      case _ => 257)
    case 12 => (
      match code
      case 0xffa => 35 case 0xffb => 62
      case _ => 257)
    case 13 => (
      match code
      case 0x1ff8 => 0 case 0x1ff9 => 36 case 0x1ffa => 64 case 0x1ffb => 91 case 0x1ffc => 93 case 0x1ffd => 126
      case _ => 257)
    case 14 => (
      match code
      case 0x3ffc => 94 case 0x3ffd => 125
      case _ => 257)
    case 15 => (
      match code
      case 0x7ffc => 60 case 0x7ffd => 96 case 0x7ffe => 123
      case _ => 257)
    case 19 => (
      match code
      case 0x7fff0 => 92 case 0x7fff1 => 195 case 0x7fff2 => 208
      case _ => 257)
    case 20 => (
      match code
      case 0xfffe6 => 128 case 0xfffe7 => 130 case 0xfffe8 => 131 case 0xfffe9 => 162 case 0xfffea => 184 case 0xfffeb => 194
      case 0xfffec => 224 case 0xfffed => 226
      case _ => 257)
    case 21 => (
      match code
      case 0x1fffdc => 153 case 0x1fffdd => 161 case 0x1fffde => 167 case 0x1fffdf => 172 case 0x1fffe0 => 176 case 0x1fffe1 => 177
      case 0x1fffe2 => 179 case 0x1fffe3 => 209 case 0x1fffe4 => 216 case 0x1fffe5 => 217 case 0x1fffe6 => 227 case 0x1fffe7 => 229
      case 0x1fffe8 => 230
      case _ => 257)
    case 22 => (
      match code
      case 0x3fffd2 => 129 case 0x3fffd3 => 132 case 0x3fffd4 => 133 case 0x3fffd5 => 134 case 0x3fffd6 => 136 case 0x3fffd7 => 146
      case 0x3fffd8 => 154 case 0x3fffd9 => 156 case 0x3fffda => 160 case 0x3fffdb => 163 case 0x3fffdc => 164 case 0x3fffdd => 169
      case 0x3fffde => 170 case 0x3fffdf => 173 case 0x3fffe0 => 178 case 0x3fffe1 => 181 case 0x3fffe2 => 185 case 0x3fffe3 => 186
      case 0x3fffe4 => 187 case 0x3fffe5 => 189 case 0x3fffe6 => 190 case 0x3fffe7 => 196 case 0x3fffe8 => 198 case 0x3fffe9 => 228
      case 0x3fffea => 232 case 0x3fffeb => 233
      case _ => 257)
    case 23 => (
      match code
      case 0x7fffd8 => 1 case 0x7fffd9 => 135 case 0x7fffda => 137 case 0x7fffdb => 138 case 0x7fffdc => 139 case 0x7fffdd => 140
      case 0x7fffde => 141 case 0x7fffdf => 143 case 0x7fffe0 => 147 case 0x7fffe1 => 149 case 0x7fffe2 => 150 case 0x7fffe3 => 151
      case 0x7fffe4 => 152 case 0x7fffe5 => 155 case 0x7fffe6 => 157 case 0x7fffe7 => 158 case 0x7fffe8 => 165 case 0x7fffe9 => 166
      case 0x7fffea => 168 case 0x7fffeb => 174 case 0x7fffec => 175 case 0x7fffed => 180 case 0x7fffee => 182 case 0x7fffef => 183
      case 0x7ffff0 => 188 case 0x7ffff1 => 191 case 0x7ffff2 => 197 case 0x7ffff3 => 231 case 0x7ffff4 => 239
      case _ => 257)
    case 24 => (
      match code
      case 0xffffea => 9 case 0xffffeb => 142 case 0xffffec => 144 case 0xffffed => 145 case 0xffffee => 148 case 0xffffef => 159
      case 0xfffff0 => 171 case 0xfffff1 => 206 case 0xfffff2 => 215 case 0xfffff3 => 225 case 0xfffff4 => 236 case 0xfffff5 => 237
      case _ => 257)
    case 25 => (
      match code
      case 0x1ffffec => 199 case 0x1ffffed => 207 case 0x1ffffee => 234 case 0x1ffffef => 235
      case _ => 257)
    case 26 => (
      match code
      case 0x3ffffe0 => 192 case 0x3ffffe1 => 193 case 0x3ffffe2 => 200 case 0x3ffffe3 => 201 case 0x3ffffe4 => 202 case 0x3ffffe5 => 205
      case 0x3ffffe6 => 210 case 0x3ffffe7 => 213 case 0x3ffffe8 => 218 case 0x3ffffe9 => 219 case 0x3ffffea => 238 case 0x3ffffeb => 240
      case 0x3ffffec => 242 case 0x3ffffed => 243 case 0x3ffffee => 255
      case _ => 257)
    case 27 => (
      match code
      case 0x7ffffde => 203 case 0x7ffffdf => 204 case 0x7ffffe0 => 211 case 0x7ffffe1 => 212 case 0x7ffffe2 => 214 case 0x7ffffe3 => 221
      case 0x7ffffe4 => 222 case 0x7ffffe5 => 223 case 0x7ffffe6 => 241 case 0x7ffffe7 => 244 case 0x7ffffe8 => 245 case 0x7ffffe9 => 246
      case 0x7ffffea => 247 case 0x7ffffeb => 248 case 0x7ffffec => 250 case 0x7ffffed => 251 case 0x7ffffee => 252 case 0x7ffffef => 253
      case 0x7fffff0 => 254
      case _ => 257)
    case 28 => (
      match code
      case 0xfffffe2 => 2 case 0xfffffe3 => 3 case 0xfffffe4 => 4 case 0xfffffe5 => 5 case 0xfffffe6 => 6 case 0xfffffe7 => 7
      case 0xfffffe8 => 8 case 0xfffffe9 => 11 case 0xfffffea => 12 case 0xfffffeb => 14 case 0xfffffec => 15 case 0xfffffed => 16
      case 0xfffffee => 17 case 0xfffffef => 18 case 0xffffff0 => 19 case 0xffffff1 => 20 case 0xffffff2 => 21 case 0xffffff3 => 23
      case 0xffffff4 => 24 case 0xffffff5 => 25 case 0xffffff6 => 26 case 0xffffff7 => 27 case 0xffffff8 => 28 case 0xffffff9 => 29
      case 0xffffffa => 30 case 0xffffffb => 31 case 0xffffffc => 127 case 0xffffffd => 220 case 0xffffffe => 249
      case _ => 257)
    case 30 => (
      match code
      case 0x3ffffffc => 10 case 0x3ffffffd => 13 case 0x3ffffffe => 22 case 0x3fffffff => 256
      case _ => 257)
    case _ => 257
  }

  /** First code word of each length. */
  function First(bits: int): int
  {
    match bits
    case 5 => 0x0 case 6 => 0x14 case 7 => 0x5c case 8 => 0xf8 case 9 => 0x1fc
    case 10 => 0x3f8 case 11 => 0x7fa case 12 => 0xffa case 13 => 0x1ff8 case 14 => 0x3ffc
    case 15 => 0x7ffc case 16 => 0xfffe case 17 => 0x1fffc case 18 => 0x3fff8 case 19 => 0x7fff0
    case 20 => 0xfffe6 case 21 => 0x1fffdc case 22 => 0x3fffd2 case 23 => 0x7fffd8 case 24 => 0xffffea
    case 25 => 0x1ffffec case 26 => 0x3ffffe0 case 27 => 0x7ffffde case 28 => 0xfffffe2 case 29 => 0x1ffffffe
    case 30 => 0x3ffffffc case 31 => 0x80000000
    case _ => 0
  }

  /** What every entry satisfies: its code lies in its length's range and is its own. */
  predicate Canonical(sym: int)
  {
    var e := CodeEntry(sym);
    && 5 <= e.bits <= 30
    && First(e.bits) <= e.code && 2 * (e.code + 1) <= First(e.bits + 1)
    && Owner(e.bits, e.code) == sym
  }

  lemma Row0()
    ensures Canonical(0) && Canonical(1) && Canonical(2) && Canonical(3)
    ensures Canonical(4) && Canonical(5) && Canonical(6) && Canonical(7)
  {
    assert Canonical(0); assert Canonical(1); assert Canonical(2); assert Canonical(3);
    assert Canonical(4); assert Canonical(5); assert Canonical(6); assert Canonical(7);
  }

  lemma Row1()
    ensures Canonical(8) && Canonical(9) && Canonical(10) && Canonical(11)
    ensures Canonical(12) && Canonical(13) && Canonical(14) && Canonical(15)
  {
    assert Canonical(8); assert Canonical(9); assert Canonical(10); assert Canonical(11);
    assert Canonical(12); assert Canonical(13); assert Canonical(14); assert Canonical(15);
  }

  lemma Row2()
    ensures Canonical(16) && Canonical(17) && Canonical(18) && Canonical(19)
    ensures Canonical(20) && Canonical(21) && Canonical(22) && Canonical(23)
  {
    assert Canonical(16); assert Canonical(17); assert Canonical(18); assert Canonical(19);
    assert Canonical(20); assert Canonical(21); assert Canonical(22); assert Canonical(23);
  }

  lemma Row3()
    ensures Canonical(24) && Canonical(25) && Canonical(26) && Canonical(27)
    ensures Canonical(28) && Canonical(29) && Canonical(30) && Canonical(31)
  {
    assert Canonical(24); assert Canonical(25); assert Canonical(26); assert Canonical(27);
    assert Canonical(28); assert Canonical(29); assert Canonical(30); assert Canonical(31);
  }

  lemma Row4()
    ensures Canonical(32) && Canonical(33) && Canonical(34) && Canonical(35)
    ensures Canonical(36) && Canonical(37) && Canonical(38) && Canonical(39)
  {
    assert Canonical(32); assert Canonical(33); assert Canonical(34); assert Canonical(35);
    assert Canonical(36); assert Canonical(37); assert Canonical(38); assert Canonical(39);
  }

  lemma Row5()
    ensures Canonical(40) && Canonical(41) && Canonical(42) && Canonical(43)
    ensures Canonical(44) && Canonical(45) && Canonical(46) && Canonical(47)
  {
    assert Canonical(40); assert Canonical(41); assert Canonical(42); assert Canonical(43);
    assert Canonical(44); assert Canonical(45); assert Canonical(46); assert Canonical(47);
  }

  lemma Row6()
    ensures Canonical(48) && Canonical(49) && Canonical(50) && Canonical(51)
    ensures Canonical(52) && Canonical(53) && Canonical(54) && Canonical(55)
  {
    assert Canonical(48); assert Canonical(49); assert Canonical(50); assert Canonical(51);
    assert Canonical(52); assert Canonical(53); assert Canonical(54); assert Canonical(55);
  }

  lemma Row7()
    ensures Canonical(56) && Canonical(57) && Canonical(58) && Canonical(59)
    ensures Canonical(60) && Canonical(61) && Canonical(62) && Canonical(63)
  {
    assert Canonical(56); assert Canonical(57); assert Canonical(58); assert Canonical(59);
    assert Canonical(60); assert Canonical(61); assert Canonical(62); assert Canonical(63);
  }

  lemma Row8()
    ensures Canonical(64) && Canonical(65) && Canonical(66) && Canonical(67)
    ensures Canonical(68) && Canonical(69) && Canonical(70) && Canonical(71)
  {
    assert Canonical(64); assert Canonical(65); assert Canonical(66); assert Canonical(67);
    assert Canonical(68); assert Canonical(69); assert Canonical(70); assert Canonical(71);
  }

  lemma Row9()
    ensures Canonical(72) && Canonical(73) && Canonical(74) && Canonical(75)
    ensures Canonical(76) && Canonical(77) && Canonical(78) && Canonical(79)
  {
    assert Canonical(72); assert Canonical(73); assert Canonical(74); assert Canonical(75);
    assert Canonical(76); assert Canonical(77); assert Canonical(78); assert Canonical(79);
  }

  lemma Row10()
    ensures Canonical(80) && Canonical(81) && Canonical(82) && Canonical(83)
    ensures Canonical(84) && Canonical(85) && Canonical(86) && Canonical(87)
  {
    assert Canonical(80); assert Canonical(81); assert Canonical(82); assert Canonical(83);
    assert Canonical(84); assert Canonical(85); assert Canonical(86); assert Canonical(87);
  }

  lemma Row11()
    ensures Canonical(88) && Canonical(89) && Canonical(90) && Canonical(91)
    ensures Canonical(92) && Canonical(93) && Canonical(94) && Canonical(95)
  {
    assert Canonical(88); assert Canonical(89); assert Canonical(90); assert Canonical(91);
    assert Canonical(92); assert Canonical(93); assert Canonical(94); assert Canonical(95);
  }

  lemma Row12()
    ensures Canonical(96) && Canonical(97) && Canonical(98) && Canonical(99)
    ensures Canonical(100) && Canonical(101) && Canonical(102) && Canonical(103)
  {
    assert Canonical(96); assert Canonical(97); assert Canonical(98); assert Canonical(99);
    assert Canonical(100); assert Canonical(101); assert Canonical(102); assert Canonical(103);
  }

  lemma Row13()
    ensures Canonical(104) && Canonical(105) && Canonical(106) && Canonical(107)
    ensures Canonical(108) && Canonical(109) && Canonical(110) && Canonical(111)
  {
    assert Canonical(104); assert Canonical(105); assert Canonical(106); assert Canonical(107);
    assert Canonical(108); assert Canonical(109); assert Canonical(110); assert Canonical(111);
  }

  lemma Row14()
    ensures Canonical(112) && Canonical(113) && Canonical(114) && Canonical(115)
    ensures Canonical(116) && Canonical(117) && Canonical(118) && Canonical(119)
  {
    assert Canonical(112); assert Canonical(113); assert Canonical(114); assert Canonical(115);
    assert Canonical(116); assert Canonical(117); assert Canonical(118); assert Canonical(119);
  }

  lemma Row15()
    ensures Canonical(120) && Canonical(121) && Canonical(122) && Canonical(123)
    ensures Canonical(124) && Canonical(125) && Canonical(126) && Canonical(127)
  {
    assert Canonical(120); assert Canonical(121); assert Canonical(122); assert Canonical(123);
    assert Canonical(124); assert Canonical(125); assert Canonical(126); assert Canonical(127);
  }

  lemma Row16()
    ensures Canonical(128) && Canonical(129) && Canonical(130) && Canonical(131)
    ensures Canonical(132) && Canonical(133) && Canonical(134) && Canonical(135)
  {
    assert Canonical(128); assert Canonical(129); assert Canonical(130); assert Canonical(131);
    assert Canonical(132); assert Canonical(133); assert Canonical(134); assert Canonical(135);
  }

  lemma Row17()
    ensures Canonical(136) && Canonical(137) && Canonical(138) && Canonical(139)
    ensures Canonical(140) && Canonical(141) && Canonical(142) && Canonical(143)
  {
    assert Canonical(136); assert Canonical(137); assert Canonical(138); assert Canonical(139);
    assert Canonical(140); assert Canonical(141); assert Canonical(142); assert Canonical(143);
  }

  lemma Row18()
    ensures Canonical(144) && Canonical(145) && Canonical(146) && Canonical(147)
    ensures Canonical(148) && Canonical(149) && Canonical(150) && Canonical(151)
  {
    assert Canonical(144); assert Canonical(145); assert Canonical(146); assert Canonical(147);
    assert Canonical(148); assert Canonical(149); assert Canonical(150); assert Canonical(151);
  }

  lemma Row19()
    ensures Canonical(152) && Canonical(153) && Canonical(154) && Canonical(155)
    ensures Canonical(156) && Canonical(157) && Canonical(158) && Canonical(159)
  {
    assert Canonical(152); assert Canonical(153); assert Canonical(154); assert Canonical(155);
    assert Canonical(156); assert Canonical(157); assert Canonical(158); assert Canonical(159);
  }

  lemma Row20()
    ensures Canonical(160) && Canonical(161) && Canonical(162) && Canonical(163)
    ensures Canonical(164) && Canonical(165) && Canonical(166) && Canonical(167)
  {
    assert Canonical(160); assert Canonical(161); assert Canonical(162); assert Canonical(163);
    assert Canonical(164); assert Canonical(165); assert Canonical(166); assert Canonical(167);
  }

  lemma Row21()
    ensures Canonical(168) && Canonical(169) && Canonical(170) && Canonical(171)
    ensures Canonical(172) && Canonical(173) && Canonical(174) && Canonical(175)
  {
    assert Canonical(168); assert Canonical(169); assert Canonical(170); assert Canonical(171);
    assert Canonical(172); assert Canonical(173); assert Canonical(174); assert Canonical(175);
  }

  lemma Row22()
    ensures Canonical(176) && Canonical(177) && Canonical(178) && Canonical(179)
    ensures Canonical(180) && Canonical(181) && Canonical(182) && Canonical(183)
  {
    assert Canonical(176); assert Canonical(177); assert Canonical(178); assert Canonical(179);
    assert Canonical(180); assert Canonical(181); assert Canonical(182); assert Canonical(183);
  }

  lemma Row23()
    ensures Canonical(184) && Canonical(185) && Canonical(186) && Canonical(187)
    ensures Canonical(188) && Canonical(189) && Canonical(190) && Canonical(191)
  {
    assert Canonical(184); assert Canonical(185); assert Canonical(186); assert Canonical(187);
    assert Canonical(188); assert Canonical(189); assert Canonical(190); assert Canonical(191);
  }

  lemma Row24()
    ensures Canonical(192) && Canonical(193) && Canonical(194) && Canonical(195)
    ensures Canonical(196) && Canonical(197) && Canonical(198) && Canonical(199)
  {
    assert Canonical(192); assert Canonical(193); assert Canonical(194); assert Canonical(195);
    assert Canonical(196); assert Canonical(197); assert Canonical(198); assert Canonical(199);
  }

  lemma Row25()
    ensures Canonical(200) && Canonical(201) && Canonical(202) && Canonical(203)
    ensures Canonical(204) && Canonical(205) && Canonical(206) && Canonical(207)
  {
    assert Canonical(200); assert Canonical(201); assert Canonical(202); assert Canonical(203);
    assert Canonical(204); assert Canonical(205); assert Canonical(206); assert Canonical(207);
  }

  lemma Row26()
    ensures Canonical(208) && Canonical(209) && Canonical(210) && Canonical(211)
    ensures Canonical(212) && Canonical(213) && Canonical(214) && Canonical(215)
  {
    assert Canonical(208); assert Canonical(209); assert Canonical(210); assert Canonical(211);
    assert Canonical(212); assert Canonical(213); assert Canonical(214); assert Canonical(215);
  }

  lemma Row27()
    ensures Canonical(216) && Canonical(217) && Canonical(218) && Canonical(219)
    ensures Canonical(220) && Canonical(221) && Canonical(222) && Canonical(223)
  {
    assert Canonical(216); assert Canonical(217); assert Canonical(218); assert Canonical(219);
    assert Canonical(220); assert Canonical(221); assert Canonical(222); assert Canonical(223);
  }

  lemma Row28()
    ensures Canonical(224) && Canonical(225) && Canonical(226) && Canonical(227)
    ensures Canonical(228) && Canonical(229) && Canonical(230) && Canonical(231)
  {
    assert Canonical(224); assert Canonical(225); assert Canonical(226); assert Canonical(227);
    assert Canonical(228); assert Canonical(229); assert Canonical(230); assert Canonical(231);
  }

  lemma Row29()
    ensures Canonical(232) && Canonical(233) && Canonical(234) && Canonical(235)
    ensures Canonical(236) && Canonical(237) && Canonical(238) && Canonical(239)
  {
    assert Canonical(232); assert Canonical(233); assert Canonical(234); assert Canonical(235);
    assert Canonical(236); assert Canonical(237); assert Canonical(238); assert Canonical(239);
  }

  lemma Row30()
    ensures Canonical(240) && Canonical(241) && Canonical(242) && Canonical(243)
    ensures Canonical(244) && Canonical(245) && Canonical(246) && Canonical(247)
  {
    assert Canonical(240); assert Canonical(241); assert Canonical(242); assert Canonical(243);
    assert Canonical(244); assert Canonical(245); assert Canonical(246); assert Canonical(247);
  }

  lemma Row31()
    ensures Canonical(248) && Canonical(249) && Canonical(250) && Canonical(251)
    ensures Canonical(252) && Canonical(253) && Canonical(254) && Canonical(255)
  {
    assert Canonical(248); assert Canonical(249); assert Canonical(250); assert Canonical(251);
    assert Canonical(252); assert Canonical(253); assert Canonical(254); assert Canonical(255);
  }

  lemma Row32()
    ensures Canonical(256)
  {
    assert Canonical(256);
  }

  lemma AllCanonical(sym: nat)
    requires sym < 257
    ensures Canonical(sym)
  {
    hide *;
    if sym < 8 { Row0(); }
    else if sym < 16 { Row1(); }
    else if sym < 24 { Row2(); }
    else if sym < 32 { Row3(); }
    else if sym < 40 { Row4(); }
    else if sym < 48 { Row5(); }
    else if sym < 56 { Row6(); }
    else if sym < 64 { Row7(); }
    else if sym < 72 { Row8(); }
    else if sym < 80 { Row9(); }
    else if sym < 88 { Row10(); }
    else if sym < 96 { Row11(); }
    else if sym < 104 { Row12(); }
    else if sym < 112 { Row13(); }
    else if sym < 120 { Row14(); }
    else if sym < 128 { Row15(); }
    else if sym < 136 { Row16(); }
    else if sym < 144 { Row17(); }
    else if sym < 152 { Row18(); }
    else if sym < 160 { Row19(); }
    else if sym < 168 { Row20(); }
    else if sym < 176 { Row21(); }
    else if sym < 184 { Row22(); }
    else if sym < 192 { Row23(); }
    else if sym < 200 { Row24(); }
    else if sym < 208 { Row25(); }
    else if sym < 216 { Row26(); }
    else if sym < 224 { Row27(); }
    else if sym < 232 { Row28(); }
    else if sym < 240 { Row29(); }
    else if sym < 248 { Row30(); }
    else if sym < 256 { Row31(); }
    else { Row32(); }
  }

  lemma FirstDoubles(k: nat)
    requires 5 <= k <= 30
    ensures 2 * First(k) <= First(k + 1)
  {
  }

  lemma Twice(x: int, y: nat)
    ensures x * (2 * y) == 2 * (x * y)
  {
  }

  lemma {:induction false} FirstScale(a: nat, b: nat)
    requires 5 <= a <= b <= 31
    ensures First(a) * Pow2(b - a) <= First(b)
  {
    hide First, Pow2;
    if a < b {
      FirstScale(a, b - 1);
      FirstDoubles(b - 1);
      Pow2Step(b - 1 - a);
      Twice(First(a), Pow2(b - 1 - a));
    } else {
      Pow2Zero();
    }
  }

  /** Codes fit their length. */
  lemma FirstFits(k: nat)
    requires 5 <= k <= 31
    ensures First(k) <= Pow2(k)
  {
    hide First, Pow2;
    FirstScale(k, 31);
    Pow2Add(k, 31 - k);
    assert First(31) == Pow2(31) by { FirstOfAll(); }
    CancelRight(First(k), Pow2(k), Pow2(31 - k));
  }

  lemma FirstOfAll()
    ensures First(31) == Pow2(31) && Pow2(30) == 0x4000_0000
  {
    hide Pow2;
    Pow2Words();
    Pow2Values();
    Pow2Add(25, 5);
    Pow2Add(30, 1);
  }

  lemma CancelRight(x: int, y: nat, z: nat)
    requires z > 0 && x * z <= y * z
    ensures x <= y
  {
    assert (y + 1) * z == y * z + z;
    if x > y { MulMonotonic(y + 1, x, z); }
  }

  lemma {:induction false} LowBitsInjective(x: nat, y: nat, n: nat)
    requires x < Pow2(n) && y < Pow2(n) && LowBits(x, n) == LowBits(y, n)
    ensures x == y
  {
    if n > 0 {
      assert LowBits(x, n)[..n - 1] == LowBits(x / 2, n - 1) && LowBits(y, n)[..n - 1] == LowBits(y / 2, n - 1);
      assert LowBits(x, n)[n - 1] == (x % 2 == 1) && LowBits(y, n)[n - 1] == (y % 2 == 1);
      LowBitsInjective(x / 2, y / 2, n - 1);
    }
  }

  /** A code that starts another one is that code shifted right. */
  lemma PrefixIsShift(x: nat, a: nat, y: nat, b: nat)
    requires x < Pow2(a) && y < Pow2(b) && a <= b && LowBits(x, a) <= LowBits(y, b)
    ensures y < (x + 1) * Pow2(b - a) && x * Pow2(b - a) <= y
  {
    hide LowBits, Pow2;
    var d := b - a;
    BitsSplit(y, a, d);
    assert LowBits(y, b)[..a] == LowBits(Shr(y, d), a);
    assert LowBits(x, a) == LowBits(Shr(y, d), a);
    var q, r := DivMod(y, Pow2(d));
    Pow2Add(a, d);
    assert q < Pow2(a) by {
      if q >= Pow2(a) { MulMonotonic(Pow2(a), q, Pow2(d)); }
    }
    LowBitsInjective(x, q, a);
    assert (x + 1) * Pow2(d) == x * Pow2(d) + Pow2(d);
  }

  function RfcTable(): Table { seq(257, sym requires 0 <= sym < 257 => CodeEntry(sym)) }

  lemma EntryFits(sym: nat)
    requires sym < 257
    ensures 5 <= RfcTable()[sym].bits <= 30 && RfcTable()[sym].code < Pow2(RfcTable()[sym].bits)
  {
    hide CodeEntry, First, Owner, Pow2;
    AllCanonical(sym);
    var e := CodeEntry(sym);
    FirstFits(e.bits + 1);
    Pow2Step(e.bits);
  }

  lemma Pow2Step(n: nat)
    ensures Pow2(n + 1) == 2 * Pow2(n)
  {
  }

  lemma NoPrefix(i: nat, j: nat)
    requires i < 257 && j < 257 && i != j
    ensures !(CodeOf(RfcTable(), i) <= CodeOf(RfcTable(), j))
  {
    hide CodeEntry, First, Owner, Pow2, LowBits;
    var x, y := CodeEntry(i), CodeEntry(j);
    AllCanonical(i); AllCanonical(j);
    EntryFits(i); EntryFits(j);
    if x.bits < y.bits {
      LaterRange(x, y.bits);
    } else if x.bits == y.bits {
      Pow2Values();
      Pow2Step(0);
    }
    if x.bits <= y.bits && LowBits(x.code, x.bits) <= LowBits(y.code, y.bits) {
      PrefixIsShift(x.code, x.bits, y.code, y.bits);
    }
  }

  lemma MulDouble(a: nat, b: nat)
    ensures (2 * a) * b == a * (2 * b)
  {
  }

  /** Longer codes start beyond every extension of a shorter one. */
  lemma LaterRange(x: HuffmanCode, bits: nat)
    requires 5 <= x.bits < bits <= 30 && 2 * (x.code + 1) <= First(x.bits + 1)
    ensures (x.code + 1) * Pow2(bits - x.bits) <= First(bits)
  {
    hide First, Pow2;
    var d := bits - x.bits;
    FirstScale(x.bits + 1, bits);
    Pow2Step(d - 1);
    MulMonotonic(2 * (x.code + 1), First(x.bits + 1), Pow2(d - 1));
    MulDouble(x.code + 1, Pow2(d - 1));
  }

  // ---------------------------------------------------------------- the code is canonical

  lemma OwnersOf5(c: nat)
    requires First(5) <= c && 2 * (c + 2) <= First(6)
    ensures Owner(5, c) < Owner(5, c + 1)
  {
  }

  lemma OwnersOf6(c: nat)
    requires First(6) <= c && 2 * (c + 2) <= First(7)
    ensures Owner(6, c) < Owner(6, c + 1)
  {
  }

  lemma OwnersOf7(c: nat)
    requires First(7) <= c && 2 * (c + 2) <= First(8)
    ensures Owner(7, c) < Owner(7, c + 1)
  {
  }

  lemma OwnersOf8To12(bits: nat, c: nat)
    requires 8 <= bits <= 12 && First(bits) <= c && 2 * (c + 2) <= First(bits + 1)
    ensures Owner(bits, c) < Owner(bits, c + 1)
  {
  }

  lemma OwnersOf13To19(bits: nat, c: nat)
    requires 13 <= bits <= 19 && First(bits) <= c && 2 * (c + 2) <= First(bits + 1)
    ensures Owner(bits, c) < Owner(bits, c + 1)
  {
  }

  lemma OwnersOf20(c: nat)
    requires First(20) <= c && 2 * (c + 2) <= First(21)
    ensures Owner(20, c) < Owner(20, c + 1)
  {
  }

  lemma OwnersOf21(c: nat)
    requires First(21) <= c && 2 * (c + 2) <= First(22)
    ensures Owner(21, c) < Owner(21, c + 1)
  {
  }

  lemma OwnersOf22(c: nat)
    requires First(22) <= c && 2 * (c + 2) <= First(23)
    ensures Owner(22, c) < Owner(22, c + 1)
  {
  }

  lemma OwnersOf23(c: nat)
    requires First(23) <= c && 2 * (c + 2) <= First(24)
    ensures Owner(23, c) < Owner(23, c + 1)
  {
  }

  lemma OwnersOf24(c: nat)
    requires First(24) <= c && 2 * (c + 2) <= First(25)
    ensures Owner(24, c) < Owner(24, c + 1)
  {
  }

  lemma OwnersOf25(c: nat)
    requires First(25) <= c && 2 * (c + 2) <= First(26)
    ensures Owner(25, c) < Owner(25, c + 1)
  {
  }

  lemma OwnersOf26(c: nat)
    requires First(26) <= c && 2 * (c + 2) <= First(27)
    ensures Owner(26, c) < Owner(26, c + 1)
  {
  }

  lemma OwnersOf27(c: nat)
    requires First(27) <= c && 2 * (c + 2) <= First(28)
    ensures Owner(27, c) < Owner(27, c + 1)
  {
  }

  lemma OwnersOf28(c: nat)
    requires First(28) <= c && 2 * (c + 2) <= First(29)
    ensures Owner(28, c) < Owner(28, c + 1)
  {
  }

  lemma OwnersOf29To30(bits: nat, c: nat)
    requires 29 <= bits <= 30 && First(bits) <= c && 2 * (c + 2) <= First(bits + 1)
    ensures Owner(bits, c) < Owner(bits, c + 1)
  {
  }

  /** Code words of one length belong to their symbols in order. */
  lemma OwnersInOrder(bits: nat, c: nat)
    requires 5 <= bits <= 30 && First(bits) <= c && 2 * (c + 2) <= First(bits + 1)
    ensures Owner(bits, c) < Owner(bits, c + 1)
  {
    hide *;
    if bits == 5 { OwnersOf5(c); }
    else if bits == 6 { OwnersOf6(c); }
    else if bits == 7 { OwnersOf7(c); }
    else if bits <= 12 { OwnersOf8To12(bits, c); }
    else if bits <= 19 { OwnersOf13To19(bits, c); }
    else if bits == 20 { OwnersOf20(c); }
    else if bits == 21 { OwnersOf21(c); }
    else if bits == 22 { OwnersOf22(c); }
    else if bits == 23 { OwnersOf23(c); }
    else if bits == 24 { OwnersOf24(c); }
    else if bits == 25 { OwnersOf25(c); }
    else if bits == 26 { OwnersOf26(c); }
    else if bits == 27 { OwnersOf27(c); }
    else if bits == 28 { OwnersOf28(c); }
    else { OwnersOf29To30(bits, c); }
  }

  lemma {:induction false} LaterOwner(bits: nat, c: nat, d: nat)
    requires 5 <= bits <= 30 && First(bits) <= c < d && 2 * (d + 1) <= First(bits + 1)
    ensures Owner(bits, c) < Owner(bits, d)
    decreases d - c
  {
    hide First, Owner;
    OwnersInOrder(bits, c);
    if c + 1 < d { LaterOwner(bits, c + 1, d); }
  }

  /**
   The code is the canonical one for its lengths: among symbols of one length the codes increase with the symbol,
   and every longer code lies beyond all extensions of a shorter one.
   */
  lemma CanonicalCode(i: nat, j: nat)
    requires i < 257 && j < 257
    ensures var x, y := RfcTable()[i], RfcTable()[j];
      && (x.bits == y.bits && i < j ==> x.code < y.code)
      && (x.bits < y.bits ==> (x.code + 1) * Pow2(y.bits - x.bits) <= y.code)
  {
    hide CodeEntry, First, Owner, Pow2;
    var x, y := CodeEntry(i), CodeEntry(j);
    AllCanonical(i);
    AllCanonical(j);
    EntryFits(i);
    EntryFits(j);
    if x.bits < y.bits {
      LaterRange(x, y.bits);
    } else if x.bits == y.bits && i < j && y.code < x.code {
      LaterOwner(x.bits, y.code, x.code);
    }
  }

  /** The table of the source is prefix-free, and its end-of-string code is thirty ones. */
  lemma TableIsGood()
    ensures GoodTable(RfcTable())
  {
    hide CodeEntry, First, Owner, Pow2, LowBits;
    forall i | 0 <= i < 257
      ensures 1 <= RfcTable()[i].bits <= 32 && RfcTable()[i].code < Pow2(RfcTable()[i].bits)
    {
      EntryFits(i);
    }
    forall i, j | 0 <= i < 257 && 0 <= j < 257 && i != j
      ensures !(CodeOf(RfcTable(), i) <= CodeOf(RfcTable(), j))
    {
      NoPrefix(i, j);
    }
    EosIsOnes();
  }

  lemma EosIsOnes()
    ensures RfcTable()[EOS].bits == 30 && CodeOf(RfcTable(), EOS) == Ones(30)
  {
    hide LowBits, Pow2;
    FirstOfAll();
    BitsOfOnes(30);
  }

  lemma CodeOfA()
    ensures RfcTable()[97].bits == 5
  {
    hide Pow2, First, Owner;
    assert CodeEntry(97) == CodeAt(6, 1);
  }

  /** A real string whose padding section 5.2 of RFC 7541 allows and the decoder refuses: "a". */
  lemma PaddingIsRefused()
    ensures DecodeBits(RfcTable(), [], EncodedBits(RfcTable(), [97]) + Ones(3)) == None
  {
    hide CodeEntry, EncodedBits, DecodeBits, LowBits, GoodTable;
    var bits := EncodedBits(RfcTable(), [97]);
    TableIsGood();
    CodeOfA();
    OneSymbol(RfcTable(), 97);
    assert |bits| == 5;
    RoundTripExactly(RfcTable(), [97]);
  }

  lemma OneSymbol(table: Table, sym: byte)
    requires |table| == 257
    ensures |EncodedBits(table, [sym])| == table[sym].bits
  {
    assert [sym][1..] == [];
  }
}
