/**
 The certificate that the field modulus of P-256 is prime: a Gaussian integer of norm one and the real parts of
 its powers with exponents 1, 2, 4, ..., 2^94, of which the last is zero.
 */
module P256Certificate {

  const PRIME: nat := 0xffffffff_00000001_00000000_00000000_00000000_ffffffff_ffffffff_ffffffff

  const IMAGINARY: nat := 0x6a5b3884_934dce06_00e8152a_28240566_a2f2b0c3_c2804cef_d3b182d4_7deb8698

  /** The real part of the square of a number of norm one with real part c, modulo the modulus. */
  function Doubled(c: int): int {
    (2 * c * c - 1) % PRIME
  }

  // The real parts of the powers with exponents 2^0 to 2^93.

  const C0 := 0x75c399ab_681727ca_2af292a9_69309f17_40525761_9768a252_dcfbc518_f81be13c
  const C1 := 0xbca50f4b_f071d4a7_b486953a_25387e6e_9e370d24_000274cb_06ab5cdb_6a39853e
  const C2 := 0xd0fead7d_c8cd17ce_d420016a_49621d6f_110d6e0d_a1be728a_c909fc92_651a3019
  const C3 := 0x24c8302c_3bd79821_a98c789a_08e5f161_133e5fb9_6ddd95bc_1b81c54a_1ab30c3c
  const C4 := 0x204c36c7_a94dc873_fccefe5d_6f410bdf_43689c21_1702a7e1_6731fd39_a49e5725
  const C5 := 0x9333f72d_677f51f4_5a5c86e2_b3f489ec_25e2eff6_5ef5c525_8bfb4398_f39683f1
  const C6 := 0x99ac2192_a29bb36c_3a26a5bb_20938c6d_16455f98_efde8e50_f90ebfe1_d2a869e3
  const C7 := 0x928ff5b4_19aec85b_fb43f554_e7175807_d066361e_ecfce0c3_80fc5421_e1139631
  const C8 := 0x290afe66_bd291240_e5acd39c_abd369c9_a5f9a610_70187efe_30e769b7_2d21ec6d
  const C9 := 0x7193ecd6_bfb15b0a_3875b3c8_d2845dde_e199f877_c0f0116e_c74cd2d5_551c36c0
  const C10 := 0x4cb2cef5_11939ab9_2d34a507_ec9e0257_310bd3c9_1ea4f195_04e07c91_b18d5e85
  const C11 := 0xfcc4e8d7_5e4964d1_aae96597_f4c22e60_329f3bd3_0251923f_930c5289_37a3797b
  const C12 := 0xe2390d2c_2ecd0da4_4e995cbf_8ee3e2bd_a0c137b6_d07b9ea9_08f9763a_2ee62054
  const C13 := 0xe3b45c3f_6724d5f2_507af282_856dc2e4_49f003a2_3aea5dd8_7574ec65_1cad5329
  const C14 := 0xecbb17d7_adf69246_220ce7ab_62113c52_6b266675_5e8141d0_5a0c7e1a_30a22d65
  const C15 := 0x557e1de5_30388a66_abf2c013_6b29335b_ba5458cc_773eeaef_ed295db4_5d4f48f5
  const C16 := 0xd7428ec4_00ac93ae_5e29283d_7eb35f3d_015a41cb_384f815e_bd8a9bd2_a368d40e
  const C17 := 0x03b301a9_f2af4abe_e98764e4_b0dccd9e_1ac3109f_f3c01f89_393c51cb_f4df62a6
  const C18 := 0x2b6da14c_150fda04_b0bd7f0c_88c71f22_05d69894_18d66055_3b74c1f1_4f566279
  const C19 := 0xe33f3a58_0378abea_122555f9_e0d96282_4ff6f41d_d087d9ec_2e415227_968caa92
  const C20 := 0x0bf1c935_ff97291a_45577818_cf58866a_c9322d4f_c1d72417_d9140af6_d7f3c471
  const C21 := 0x50ffba95_653be0e1_1574642c_bac9b2db_80a9b501_41d9f290_1be4e118_5b7efb7d
  const C22 := 0xb3f227d4_341b8b97_cc4384b2_251aa86d_6ec87872_61eeaa70_cfaae81f_e1dc31ed
  const C23 := 0x593d55dd_7ee64e46_07bc6ea4_66363e71_b717efea_2f9287bd_9e888708_12fc2ba8
  const C24 := 0x00b25048_9f48a0c3_6377ab73_134c94a4_25d03b89_7836fc80_6e8689d3_3f394933
  const C25 := 0xdb9ef4e7_27a60589_e7ee8365_886242a5_9d65fad2_d10607f2_e1ccf01b_17a773d2
  const C26 := 0x57f6b215_e5f87aae_25ec229c_f2c1c89d_3a1bec3c_4889293b_58d1b6d6_a5b4b441
  const C27 := 0xf78d4e8c_6782ce3d_41d94952_c6dacd17_5a4812a8_b99b039e_aea803d7_acdc9cfc
  const C28 := 0x1e0a4760_3c132ae6_34c09d06_6bb6ec9d_c0cf3671_bc92c5d6_720fa94b_2b1431ae
  const C29 := 0xff2e6558_56a7690a_709287cf_bab62b0a_9e3643b4_ed33c4bf_30d42115_5178187a
  const C30 := 0x624466ce_a01679f2_616430dd_afb42ce2_50435034_a542bc67_b4139291_7549095d
  const C31 := 0x8ee76e6a_caecf466_6d02f71b_629270a3_9094223e_2ea0243a_a9d5ee36_c33c1e22
  const C32 := 0xe190ade4_97c43ebb_8b4804ce_54ba8d93_41fdae31_807f5b6f_80ef7213_8472fe8b
  const C33 := 0x307af8ca_f30779be_7367e4b5_1acef1f7_115f7877_e6c4d70d_ab85a384_15cbe390
  const C34 := 0xa8159226_b74bd772_141cd4d7_1779a58c_8e893d8b_232f71c8_4db6e35b_4ff12244
  const C35 := 0x29ececd9_0892717f_a8ad1b4f_da5d4745_9e2a08ec_e437cb36_9865d194_f20655f7
  const C36 := 0x2fa58b7c_18a85749_a78284c9_d7077af1_6d86bd4d_63435309_e1e5bfc1_bfa78be2
  const C37 := 0x400714ae_368f0f10_bf5c1e88_2e114d97_275e0548_d21117d1_c5e27b00_b4f06149
  const C38 := 0xd067ab0a_5f113240_d2b174ab_77e2b97f_2159d0b6_11ce70ee_010e7dee_827002cd
  const C39 := 0x7322fabf_e8fa34a5_d396e9f3_63cc9f81_64a94e20_6b9a1bd4_d1b998bd_6fa7158f
  const C40 := 0x9fa5e0d5_a0efffa2_1d7127fe_530a373b_6423a066_296c3ec2_775af660_7027aee2
  const C41 := 0x753d5f56_7af734ef_b03e7288_f8128f23_c5d7d675_80825daa_3a1a0102_a9b58194
  const C42 := 0xf8c9c9ac_38f9713e_1fcd69cf_617ae14f_69568095_e5e0a9d5_af9258a2_6b51a146
  const C43 := 0x7800e37c_51513ee1_1dd8c22c_8ebd9d55_238ae19c_db4524a1_d78760d4_66bd276a
  const C44 := 0xccb1fc6a_6d3a6567_81b3fc0d_1e179d94_b35b84ca_756b55b4_7f1ba367_8755fecc
  const C45 := 0xc9c4108e_a5965911_3401bb00_857b6a9a_9e3520b2_9b6bd911_0d1200f3_9f1f709d
  const C46 := 0xa8c3f80c_46271c33_df306ff4_e69bf5af_3241285f_ee51ffad_5bdb99a5_9d36c22c
  const C47 := 0x837429e6_a5dcfdce_50eadd77_854c87fc_f3a9768d_3eae4a1d_30ec18fa_6e22d7c9
  const C48 := 0xb80b427c_4a792cee_a17bb886_ff448c2a_46c6af49_f7556a13_fce0b3ee_b5febba8
  const C49 := 0xd31940c4_03921050_b023c678_d3d1ea6a_9c0b7587_ad90a85f_89614637_c0426573
  const C50 := 0xa8258b7d_e835a88c_ef838977_838e8370_0a6583fa_0e53a48a_ab574004_5596aec3
  const C51 := 0x899a68f1_427a0d2f_d491bd93_41d18e8e_9b317ee3_35057805_19e1ec69_da70a7ee
  const C52 := 0x985fa0ae_a736bcde_0948f545_84626ade_12365d81_891e3b89_49c081ca_f0a2d977
  const C53 := 0x5408d170_ded8ca58_97dcde0f_b25e71bf_2b97a80a_b7b1f239_9d23d4a1_1613fccd
  const C54 := 0x2c59042e_736d3c30_4a08e3b4_5aa6ebae_2e855398_915509f5_ce82c427_74b604be
  const C55 := 0x95136227_d3371e99_e05dfbcb_6498dc62_e7074572_3037d97a_ee9c6f7d_c0b8e2e1
  const C56 := 0xb2ab36c0_ff51d7f5_924aff03_b3f87e82_3d905ba9_c97e1f15_45042754_f8273ac2
  const C57 := 0x21e534d0_e80aaa2c_636f7c03_a148060c_aeee31f8_ff828efe_fa68fe1d_14655058
  const C58 := 0xc8821d0b_c7ae8b97_eb10f099_0664cacb_a70f9398_bf109351_6e1e39cd_4c5deac1
  const C59 := 0xef480e7b_60cd684f_a65ce501_98ea29ee_0ed66162_88b3a1c0_08a6d714_820101e1
  const C60 := 0xce285209_d3da16b6_1fa616a1_e6aa4ee8_bb2c2b9b_d2313a4f_e30a83d2_5ebaa8b5
  const C61 := 0xab71110c_8f36054a_c095cd9b_2844fb00_8ed9d5a4_85884008_f9e3ff3d_ab5a3cc6
  const C62 := 0x4805f2d8_9d3067c5_9c50f30b_23f7ba24_579dfb53_1a8456a5_f885200f_5a924850
  const C63 := 0x23074ebb_9133523a_dbcd26da_69067c65_38a0bf60_fb74e4a0_56f32254_5d065dad
  const C64 := 0x1d60a0e1_616f44d7_464f7bf5_a6efc1b6_d0caf582_6c090aa4_189cb4d3_4226de7e
  const C65 := 0x0a760ebf_502b7dfc_40a8b1bf_d6d5af2d_f672b65b_c2d7d2e0_aa18b366_7f0679b7
  const C66 := 0x143aa4e5_e254b824_a12afac2_510be05c_0af3b0b0_a3e28421_927aa20b_3ea42699
  const C67 := 0x7069e401_43d8c184_1033198f_f3134283_9834aabb_93f19069_455291a9_41073beb
  const C68 := 0x649d77fc_3dc7a9c1_dd88db92_13868ac4_0ad561d5_994c6983_9a346776_f4ec922c
  const C69 := 0x0d1628b5_d89c574f_b579f45b_41ed012d_7efc2cd8_78390855_705a9647_25a72dff
  const C70 := 0x388d0b5d_70b0588d_e27eca76_a51eec84_6572ca16_3573ff03_39ed1634_256190ff
  const C71 := 0xf53e911d_68c1ba01_d96f00e9_ce73965c_d762ba4c_cfb9915b_d7ca6c7a_71404f23
  const C72 := 0xba27d6ab_c4615ebc_81ae4cdf_ed769bd1_c32214ee_5a4492a1_8bda262f_e2a79192
  const C73 := 0xfc7e3376_f704fbe9_f5549a08_7c028c3e_c186438c_122f8f47_2a24c6ff_b56f124f
  const C74 := 0x0523a901_126ec8d2_d2e30f9f_4611564e_aa3ac183_051b246c_9cc6356f_95de927b
  const C75 := 0x35ef9849_453ef022_e8c17ac0_7f92e2d8_48d6d069_9c85ba42_9f651f29_419128e9
  const C76 := 0x51834e18_957b0393_382670b9_f7f59889_184d029e_98f2de99_c8e9f295_7b915d2d
  const C77 := 0x44483afc_13f2019f_0c51fe36_128d99d4_36d0ce68_3cf695cf_1abcce8e_54f0d05d
  const C78 := 0x7b3755d8_8cf8045a_39b5a70a_70e95a06_d108ea90_2b397fe2_dc9ca4ee_723d58e3
  const C79 := 0xd27fcef1_3024fec6_5728fe8c_91404b09_cb12cc08_a6153ae2_38551b2f_25fd5ad6
  const C80 := 0xf1df6e49_3603390b_2eb934ee_4cb0a07d_0d7a1aa0_4ff81166_11e7a16a_001bfa96
  const C81 := 0x8c127ccd_8a5363f3_3e4d9b0c_4500671e_833029ac_716bc0ed_6e88b094_899dc19d
  const C82 := 0x3013b9d9_d41d3b63_0ea9d891_aa0bdb78_3e99b198_9ba8c7f9_8baeb3a5_75dbbd60
  const C83 := 0x2d59e5bb_74c628d5_661a481a_a6bbb4e2_e87a889c_31467e8b_81116264_6671e2f1
  const C84 := 0xf3675c6f_31a25521_ee833de8_37afc996_88f80dfa_317c1c23_9696622e_bd8d55ff
  const C85 := 0x60b61515_11021592_be079031_2817af4f_ecfd82ac_64f18351_7f49da8d_09f2b60d
  const C86 := 0xbab10e43_3b99ee30_3e9267a3_f23c1777_1bb6bf4a_b2b7022b_e31e7d40_0546cf54
  const C87 := 0xbaf7aeaa_87236ebd_0c7f95ee_988ee568_27e8dbea_5d974bb0_bbd0ca7a_c800f5e6
  const C88 := 0x529d4257_656bc77e_a146253c_62a5626c_2bef747c_b451cd4d_93e4ba0e_55adca14
  const C89 := 0xfc9a83dc_456adfc0_99c0afb1_ced4e24b_756c9498_c5301928_da37f585_2587a3d2
  const C90 := 0x46fffb1c_4e6177cc_1ba585fc_27f610ea_1b5032a0_a26e366c_bc51f453_70b88b08
  const C91 := 0x2f57e6e5_5c102f77_3acc5e72_2e6e4bfe_0371f29d_cfb97e28_14f053fe_f9ef4d1a
  const C92 := 0xfde2372a_988447bd_a3a9b289_ece9146a_84894250_ab8469c6_7e790dd9_d5a5b7d5
  const C93 := 0xa83a20ff_b9915545_29a065d2_55e16b98_5fe858b6_963cd234_0afc3c06_962ad16e

  lemma NormOne()
    ensures (C0 * C0 + IMAGINARY * IMAGINARY) % PRIME == 1
  {
  }

  lemma DoublesFrom0()
    ensures Doubled(C0) == C1
    ensures Doubled(C1) == C2
    ensures Doubled(C2) == C3
    ensures Doubled(C3) == C4
    ensures Doubled(C4) == C5
    ensures Doubled(C5) == C6
    ensures Doubled(C6) == C7
    ensures Doubled(C7) == C8
    ensures Doubled(C8) == C9
    ensures Doubled(C9) == C10
    ensures Doubled(C10) == C11
    ensures Doubled(C11) == C12
  {
  }

  lemma DoublesFrom12()
    ensures Doubled(C12) == C13
    ensures Doubled(C13) == C14
    ensures Doubled(C14) == C15
    ensures Doubled(C15) == C16
    ensures Doubled(C16) == C17
    ensures Doubled(C17) == C18
    ensures Doubled(C18) == C19
    ensures Doubled(C19) == C20
    ensures Doubled(C20) == C21
    ensures Doubled(C21) == C22
    ensures Doubled(C22) == C23
    ensures Doubled(C23) == C24
  {
  }

  lemma DoublesFrom24()
    ensures Doubled(C24) == C25
    ensures Doubled(C25) == C26
    ensures Doubled(C26) == C27
    ensures Doubled(C27) == C28
    ensures Doubled(C28) == C29
    ensures Doubled(C29) == C30
    ensures Doubled(C30) == C31
    ensures Doubled(C31) == C32
    ensures Doubled(C32) == C33
    ensures Doubled(C33) == C34
    ensures Doubled(C34) == C35
    ensures Doubled(C35) == C36
  {
  }

  lemma DoublesFrom36()
    ensures Doubled(C36) == C37
    ensures Doubled(C37) == C38
    ensures Doubled(C38) == C39
    ensures Doubled(C39) == C40
    ensures Doubled(C40) == C41
    ensures Doubled(C41) == C42
    ensures Doubled(C42) == C43
    ensures Doubled(C43) == C44
    ensures Doubled(C44) == C45
    ensures Doubled(C45) == C46
    ensures Doubled(C46) == C47
    ensures Doubled(C47) == C48
  {
  }

  lemma DoublesFrom48()
    ensures Doubled(C48) == C49
    ensures Doubled(C49) == C50
    ensures Doubled(C50) == C51
    ensures Doubled(C51) == C52
    ensures Doubled(C52) == C53
    ensures Doubled(C53) == C54
    ensures Doubled(C54) == C55
    ensures Doubled(C55) == C56
    ensures Doubled(C56) == C57
    ensures Doubled(C57) == C58
    ensures Doubled(C58) == C59
    ensures Doubled(C59) == C60
  {
  }

  lemma DoublesFrom60()
    ensures Doubled(C60) == C61
    ensures Doubled(C61) == C62
    ensures Doubled(C62) == C63
    ensures Doubled(C63) == C64
    ensures Doubled(C64) == C65
    ensures Doubled(C65) == C66
    ensures Doubled(C66) == C67
    ensures Doubled(C67) == C68
    ensures Doubled(C68) == C69
    ensures Doubled(C69) == C70
    ensures Doubled(C70) == C71
    ensures Doubled(C71) == C72
  {
  }

  lemma DoublesFrom72()
    ensures Doubled(C72) == C73
    ensures Doubled(C73) == C74
    ensures Doubled(C74) == C75
    ensures Doubled(C75) == C76
    ensures Doubled(C76) == C77
    ensures Doubled(C77) == C78
    ensures Doubled(C78) == C79
    ensures Doubled(C79) == C80
    ensures Doubled(C80) == C81
    ensures Doubled(C81) == C82
    ensures Doubled(C82) == C83
    ensures Doubled(C83) == C84
  {
  }

  lemma DoublesFrom84()
    ensures Doubled(C84) == C85
    ensures Doubled(C85) == C86
    ensures Doubled(C86) == C87
    ensures Doubled(C87) == C88
    ensures Doubled(C88) == C89
    ensures Doubled(C89) == C90
    ensures Doubled(C90) == C91
    ensures Doubled(C91) == C92
    ensures Doubled(C92) == C93
    ensures Doubled(C93) == 0
  {
  }
}
